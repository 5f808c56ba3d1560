/** `handleImageError`, the `onError` handler of card and gallery images: the
    first failure swaps the element's source for a fallback picture and
    marks the element, so that a fallback which fails too is not retried. */
module ImageFallback {

  /** The picture shown when none is given. */
  const FallbackImage := "/404.jpg"

  /** The `data-*` attribute that marks an element as already swapped. */
  const AppliedKey := "fallbackApplied"

  /** The parts of an `<img>` element the handler reads and writes: its
      source and its `data-*` attributes. */
  datatype ImgState = ImgState(src: string, dataset: map<string, string>)

  predicate Applied(e: ImgState)
  {
    AppliedKey in e.dataset && e.dataset[AppliedKey] == "true"
  }

  /** One `error` event: a marked element is left alone; otherwise it is
      marked and its source replaced by the fallback. */
  function AfterError(e: ImgState, fallback: string): (r: ImgState)
    ensures Applied(r)
    ensures Applied(e) ==> r == e
    ensures !Applied(e) ==> r.src == fallback
    ensures forall k :: k in e.dataset && k != AppliedKey ==> k in r.dataset && r.dataset[k] == e.dataset[k]
    ensures r.dataset.Keys == e.dataset.Keys + {AppliedKey}
  {
    if Applied(e) then e else ImgState(fallback, e.dataset[AppliedKey := "true"])
  }

  /** A run of `error` events, each with the fallback its handler was given. */
  function AfterErrors(e: ImgState, fallbacks: seq<string>): ImgState
    decreases |fallbacks|
  {
    if fallbacks == [] then e else AfterErrors(AfterError(e, fallbacks[0]), fallbacks[1..])
  }

  /** A second error changes nothing. */
  lemma SecondErrorIsNoOp(e: ImgState, first: string, second: string)
    ensures AfterError(AfterError(e, first), second) == AfterError(e, first)
  {
  }

  /** However many errors arrive, the source is replaced at most once: by
      the first handler's fallback on an unmarked element, never on a
      marked one. */
  lemma {:induction false} SourceReplacedOnce(e: ImgState, fallbacks: seq<string>)
    requires fallbacks != []
    ensures AfterErrors(e, fallbacks) == AfterError(e, fallbacks[0])
  {
    if |fallbacks| > 1 {
      StaysApplied(AfterError(e, fallbacks[0]), fallbacks[1..]);
    }
  }

  /** Errors on a marked element change nothing. */
  lemma {:induction false} StaysApplied(e: ImgState, fallbacks: seq<string>)
    requires Applied(e)
    ensures AfterErrors(e, fallbacks) == e
  {
    if fallbacks != [] {
      StaysApplied(AfterError(e, fallbacks[0]), fallbacks[1..]);
    }
  }

  /** An `<img>` element in the page. */
  class ImageElement {
    var src: string
    var dataset: map<string, string>

    function State(): ImgState
      reads this
    {
      ImgState(src, dataset)
    }

    constructor(src: string)
      ensures State() == ImgState(src, map[])
    {
      this.src := src;
      dataset := map[];
    }

    /** `handleImageError(event, fallback)`, the fallback defaulting to
        "/404.jpg". */
    method HandleImageError(fallback: string := FallbackImage)
      modifies this
      ensures State() == AfterError(old(State()), fallback)
    {
      if AppliedKey in dataset && dataset[AppliedKey] == "true" {
        return;
      }
      dataset := dataset[AppliedKey := "true"];
      src := fallback;
    }
  }
}
