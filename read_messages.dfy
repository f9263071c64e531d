/** The reader of apps/web/src/ReadMessages.jsx: one message of the fetched
    list at a time, moved by the previous/next buttons and by horizontal
    swipes, with a font size picked from the message's length. Each handler
    is one atomic step: the 300 ms fade between messages is collapsed. */
module ReadMessages {
  import opened Json
  import MessageService

  /** Minimum horizontal travel, in pixels, for a touch to count as a swipe. */
  const MinSwipeDistance := 50

  /** The state cells the handlers update: `current`, `touchStart` and
      `touchEnd` (`null` is None). */
  datatype NavState = NavState(current: int, touchStart: Option<int>, touchEnd: Option<int>)

  datatype NavEvent =
    | PrevClicked
    | NextClicked
    | TouchStarted(x: int)
    | TouchMoved(x: int)
    | TouchEnded

  datatype Gesture = NoSwipe | LeftSwipe | RightSwipe

  /** The cursor invariant: a valid index of a non-empty list, 0 on an empty one. */
  predicate CursorInRange(current: int, count: nat)
  {
    0 <= current && (current < count || current == 0)
  }

  /** `handlePrev`: step back unless at the first message. */
  function PrevIndex(current: int): (next: int)
    ensures current > 0 ==> next == current - 1
    ensures current <= 0 ==> next == current
  {
    if current > 0 then current - 1 else current
  }

  /** `handleNext`: step forward unless at the last message. */
  function NextIndex(current: int, count: nat): (next: int)
    ensures current < count - 1 ==> next == current + 1
    ensures current >= count - 1 ==> next == current
  {
    if current < count - 1 then current + 1 else current
  }

  /** A touch coordinate that `onTouchEnd` accepts: set, and not 0. */
  predicate TouchSet(x: Option<int>)
  {
    x.Some? && x.value != 0
  }

  /** The swipe `onTouchEnd` recognises from the recorded coordinates. */
  function ClassifySwipe(touchStart: Option<int>, touchEnd: Option<int>): (g: Gesture)
    ensures g == LeftSwipe <==>
      TouchSet(touchStart) && TouchSet(touchEnd) && touchStart.value - touchEnd.value > MinSwipeDistance
    ensures g == RightSwipe <==>
      TouchSet(touchStart) && TouchSet(touchEnd) && touchStart.value - touchEnd.value < -MinSwipeDistance
  {
    if !TouchSet(touchStart) || !TouchSet(touchEnd) then NoSwipe
    else
      var distance := touchStart.value - touchEnd.value;
      if distance > MinSwipeDistance then LeftSwipe
      else if distance < -MinSwipeDistance then RightSwipe
      else NoSwipe
  }

  /** One handler run against a list of `count` messages. */
  function Step(s: NavState, count: nat, e: NavEvent): NavState
  {
    match e
    case PrevClicked => s.(current := PrevIndex(s.current))
    case NextClicked => s.(current := NextIndex(s.current, count))
    case TouchStarted(x) => s.(touchStart := Some(x), touchEnd := None)
    case TouchMoved(x) => s.(touchEnd := Some(x))
    case TouchEnded =>
      match ClassifySwipe(s.touchStart, s.touchEnd)
      case LeftSwipe => s.(current := NextIndex(s.current, count))
      case RightSwipe => s.(current := PrevIndex(s.current))
      case NoSwipe => s
  }

  function Run(s: NavState, count: nat, events: seq<NavEvent>): NavState
    decreases |events|
  {
    if events == [] then s else Run(Step(s, count, events[0]), count, events[1..])
  }

  /** The previous button is disabled exactly at the first message. */
  predicate PrevDisabled(current: int)
  {
    current == 0
  }

  /** The next button is disabled exactly at index `messages.length - 1`. */
  predicate NextDisabled(current: int, count: nat)
  {
    current == count - 1
  }

  /** The counter's two numbers: `current + 1` and `messages.length`. */
  function Counter(current: int, count: nat): (int, nat)
  {
    (current + 1, count)
  }

  // ---------------------------------------------------------------------
  // Font size

  /** A responsive font size, in hundredths of a rem, for the xs, sm and md
      breakpoints. */
  datatype FontSize = FontSize(xs: nat, sm: nat, md: nat)

  /** Componentwise `a <= b`. */
  predicate NoLarger(a: FontSize, b: FontSize)
  {
    a.xs <= b.xs && a.sm <= b.sm && a.md <= b.md
  }

  /** The size used when there is no content: 2 / 2.5 / 3 rem. */
  const LargestSize := FontSize(200, 250, 300)

  /** `textLength < bound`, where an undefined length compares false. */
  predicate Shorter(textLength: Option<nat>, bound: nat)
  {
    textLength.Some? && textLength.value < bound
  }

  /** The tier for truthy content of the given length. */
  function FontTier(hasImage: bool, textLength: Option<nat>): FontSize
  {
    if hasImage then
      if Shorter(textLength, 50) then FontSize(150, 200, 250)
      else if Shorter(textLength, 100) then FontSize(125, 175, 200)
      else if Shorter(textLength, 150) then FontSize(110, 150, 175)
      else FontSize(100, 125, 150)
    else
      if Shorter(textLength, 50) then FontSize(200, 250, 300)
      else if Shorter(textLength, 100) then FontSize(175, 225, 275)
      else if Shorter(textLength, 150) then FontSize(150, 200, 250)
      else if Shorter(textLength, 200) then FontSize(125, 175, 200)
      else FontSize(110, 150, 175)
  }

  /** `getDynamicFontSize` for the displayed message (None when
      `messages[current]` is undefined). */
  function DynamicFontSize(msg: Option<MessageService.Record>): FontSize
  {
    var content := if msg.Some? then msg.value.content else Undefined;
    if !Truthy(content) then LargestSize
    else FontTier(Truthy(msg.value.image), Length(content))
  }

  /** The length cut-offs at which the size steps down. */
  function Cuts(hasImage: bool): set<nat>
  {
    if hasImage then {50, 100, 150} else {50, 100, 150, 200}
  }

  // ---------------------------------------------------------------------
  // The component

  class Reader {
    var messages: seq<MessageService.Record>
    var current: int
    var touchStart: Option<int>
    var touchEnd: Option<int>

    function Nav(): NavState
      reads this
    {
      NavState(current, touchStart, touchEnd)
    }

    ghost predicate Valid()
      reads this
    {
      CursorInRange(current, |messages|)
    }

    /** Mount: no messages yet, cursor at 0, no touch recorded. */
    constructor ()
      ensures Valid()
      ensures messages == [] && Nav() == NavState(0, None, None)
    {
      messages, current, touchStart, touchEnd := [], 0, None, None;
    }

    /** The fetch of the recipient's messages completing. */
    method Load(data: seq<MessageService.Record>)
      requires Valid()
      modifies this`messages
      ensures messages == data && Nav() == old(Nav())
      ensures old(messages) == [] ==> Valid()
    {
      messages := data;
    }

    method HandlePrev()
      requires Valid()
      modifies this`current
      ensures Valid()
      ensures Nav() == Step(old(Nav()), |messages|, PrevClicked)
    {
      if current > 0 {
        current := current - 1;
      }
    }

    method HandleNext()
      requires Valid()
      modifies this`current
      ensures Valid()
      ensures Nav() == Step(old(Nav()), |messages|, NextClicked)
    {
      if current < |messages| - 1 {
        current := current + 1;
      }
    }

    method OnTouchStart(x: int)
      modifies this`touchStart, this`touchEnd
      ensures Nav() == Step(old(Nav()), |messages|, TouchStarted(x))
    {
      touchEnd := None;
      touchStart := Some(x);
    }

    method OnTouchMove(x: int)
      modifies this`touchEnd
      ensures Nav() == Step(old(Nav()), |messages|, TouchMoved(x))
    {
      touchEnd := Some(x);
    }

    method OnTouchEnd()
      requires Valid()
      modifies this`current
      ensures Valid()
      ensures Nav() == Step(old(Nav()), |messages|, TouchEnded)
    {
      if !TouchSet(touchStart) || !TouchSet(touchEnd) {
        return;
      }
      var distance := touchStart.value - touchEnd.value;
      var isLeftSwipe := distance > MinSwipeDistance;
      var isRightSwipe := distance < -MinSwipeDistance;
      if isLeftSwipe {
        HandleNext();
      }
      if isRightSwipe {
        HandlePrev();
      }
    }

    /** `messages[current]`, None when it is undefined. */
    function Displayed(): (msg: Option<MessageService.Record>)
      reads this
      requires Valid()
      ensures msg.Some? <==> messages != []
      ensures msg.Some? ==> msg.value == messages[current]
    {
      if current < |messages| then Some(messages[current]) else None
    }

    /** The font size of the displayed message; the no-content size while
        the list is empty. */
    function FontSizeNow(): (size: FontSize)
      reads this
      requires Valid()
      ensures messages == [] ==> size == LargestSize
      ensures messages != [] && !Truthy(messages[current].content) ==> size == LargestSize
    {
      DynamicFontSize(Displayed())
    }
  }

  // ---------------------------------------------------------------------
  // Properties

  /** Both buttons' handlers keep the cursor invariant. */
  lemma StepsKeepCursorInRange(current: int, count: nat)
    requires CursorInRange(current, count)
    ensures CursorInRange(PrevIndex(current), count)
    ensures CursorInRange(NextIndex(current, count), count)
    ensures count == 0 ==> PrevIndex(current) == 0 && NextIndex(current, count) == 0
  {
  }

  /** Every event keeps the cursor invariant. */
  lemma StepKeepsCursorInRange(s: NavState, count: nat, e: NavEvent)
    requires CursorInRange(s.current, count)
    ensures CursorInRange(Step(s, count, e).current, count)
  {
    StepsKeepCursorInRange(s.current, count);
  }

  /** Any sequence of clicks and touches keeps `current` within the list:
      never below 0, never past the last index, and 0 on an empty list. */
  lemma {:induction false} RunKeepsCursorInRange(s: NavState, count: nat, events: seq<NavEvent>)
    requires CursorInRange(s.current, count)
    ensures CursorInRange(Run(s, count, events).current, count)
    decreases |events|
  {
    if events != [] {
      StepKeepsCursorInRange(s, count, events[0]);
      RunKeepsCursorInRange(Step(s, count, events[0]), count, events[1..]);
    }
  }

  /** Swipe trichotomy: with both coordinates set, exactly one of next,
      previous or nothing happens, according to the distance. */
  lemma SwipeTrichotomy(touchStart: int, touchEnd: int)
    requires touchStart != 0 && touchEnd != 0
    ensures var g := ClassifySwipe(Some(touchStart), Some(touchEnd));
      && (g == LeftSwipe <==> touchStart - touchEnd > 50)
      && (g == RightSwipe <==> touchStart - touchEnd < -50)
      && (g == NoSwipe <==> -50 <= touchStart - touchEnd <= 50)
  {
  }

  /** A missing or zero coordinate means no swipe at all. */
  lemma UnsetTouchIsIgnored(s: NavState, count: nat)
    requires !TouchSet(s.touchStart) || !TouchSet(s.touchEnd)
    ensures Step(s, count, TouchEnded) == s
  {
  }

  /** Touching down resets `touchEnd`, so a touch without a move never
      navigates, whatever swipe came before. */
  lemma TapNeverNavigates(s: NavState, count: nat, x: int)
    ensures Run(s, count, [TouchStarted(x), TouchEnded]).current == s.current
  {
    var s1 := Step(s, count, TouchStarted(x));
    assert [TouchStarted(x), TouchEnded][1..] == [TouchEnded];
    assert Run(s1, count, [TouchEnded]) == Step(s1, count, TouchEnded);
  }

  /** The buttons' disabled states match their handlers' guards: a disabled
      button's handler would change nothing, an enabled one's would move. */
  lemma ButtonsMatchGuards(current: int, count: nat)
    requires CursorInRange(current, count)
    ensures PrevDisabled(current) <==> PrevIndex(current) == current
    ensures count > 0 ==> (NextDisabled(current, count) <==> NextIndex(current, count) == current)
  {
  }

  /** On an empty list the next button is enabled although its handler does
      nothing. */
  lemma EmptyListNextEnabledButInert()
    ensures !NextDisabled(0, 0) && NextIndex(0, 0) == 0
  {
  }

  /** The counter shows a position between 1 and the list's length. */
  lemma CounterShowsPosition(current: int, count: nat)
    requires CursorInRange(current, count) && count > 0
    ensures 1 <= Counter(current, count).0 <= Counter(current, count).1
  {
  }

  /** The counter is shown on an empty list too, and then reads `1 / 0`. */
  lemma EmptyListCounter(current: int)
    requires CursorInRange(current, 0)
    ensures Counter(current, 0) == (1, 0)
  {
  }

  /** Longer content never gets a larger font. */
  lemma FontNonIncreasing(hasImage: bool, shorter: nat, longer: nat)
    requires shorter <= longer
    ensures NoLarger(FontTier(hasImage, Some(longer)), FontTier(hasImage, Some(shorter)))
  {
  }

  /** With an image the font is never larger than without, for the same
      length; and no tier exceeds the no-content size. */
  lemma ImageNeverLarger(textLength: Option<nat>)
    ensures NoLarger(FontTier(true, textLength), FontTier(false, textLength))
    ensures NoLarger(FontTier(false, textLength), LargestSize)
  {
  }

  /** The size changes exactly at the cut-offs: 50/100/150 with an image,
      50/100/150/200 without. */
  lemma FontStepsAtCuts(hasImage: bool, textLength: nat)
    ensures FontTier(hasImage, Some(textLength)) != FontTier(hasImage, Some(textLength + 1))
            <==> textLength + 1 in Cuts(hasImage)
  {
  }

  /** Content with no length (a number or a boolean) gets the smallest
      tier. */
  lemma NonStringContentSmallest(hasImage: bool, textLength: nat)
    ensures NoLarger(FontTier(hasImage, None), FontTier(hasImage, Some(textLength)))
    ensures FontTier(hasImage, None) == FontTier(hasImage, Some(200))
  {
  }

  /** The size depends only on the content's truthiness and length and on
      the image's truthiness. */
  lemma FontDependsOnLengthAndImage(a: MessageService.Record, b: MessageService.Record)
    requires Truthy(a.content) == Truthy(b.content) && Length(a.content) == Length(b.content)
    requires Truthy(a.image) == Truthy(b.image)
    ensures DynamicFontSize(Some(a)) == DynamicFontSize(Some(b))
  {
  }
}
