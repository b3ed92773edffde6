/**
  The frontend's global slide store: the uploaded deck, the slide being
  studied, a loading flag and the uploaded file's name.
 */
module SlideStore {
  import opened Wrappers

  /** A slide as the backend delivers it after upload. */
  datatype Slide = Slide(
    slideNo: int,
    title: string,
    points: seq<string>,
    diagramType: string,
    rawText: string,
    category: string)

  /** The store's state; each setter overwrites some of its fields. */
  class Store {
    var slides: seq<Slide>
    var currentSlideIndex: int
    var isLoading: bool
    var filename: Option<string>

    /** The initial state: no deck, no slide selected (index -1), not loading, no file. */
    constructor ()
      ensures slides == [] && currentSlideIndex == -1 && !isLoading && filename == None
    {
      slides := [];
      currentSlideIndex := -1;
      isLoading := false;
      filename := None;
    }

    /** `setSlides`: a new deck and file name; the first slide is selected, even for an empty deck. */
    method SetSlides(newSlides: seq<Slide>, newFilename: string)
      modifies this
      ensures slides == newSlides && filename == Some(newFilename) && currentSlideIndex == 0
      ensures isLoading == old(isLoading)
    {
      slides := newSlides;
      filename := Some(newFilename);
      currentSlideIndex := 0;
    }

    /** `setCurrentSlideIndex`: stores the index as given, without a bounds check. */
    method SetCurrentSlideIndex(index: int)
      modifies this`currentSlideIndex
      ensures currentSlideIndex == index
    {
      currentSlideIndex := index;
    }

    /** `setIsLoading`: changes the loading flag only. */
    method SetIsLoading(loading: bool)
      modifies this`isLoading
      ensures isLoading == loading
    {
      isLoading := loading;
    }
  }
}
