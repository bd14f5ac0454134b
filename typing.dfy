/** The hover "typing" teaser on the Arkhived link: while the pointer is over
    the link an interval timer reveals the hook text one character per tick,
    with a blinking cursor until the whole text is shown. Both pages carry the
    same machine; one class models it. */
module Typing {
  import opened Wrappers

  /** The teaser text (277 UTF-16 code units, all in the Basic Multilingual
      Plane, so one `char` each). */
  const HookText: string :=
    "Most investors are fighting over the same 1% of public listings, but the real wealth is hidden in the other 99%. Arkhived was built to give you a direct line to off-market opportunities before they ever hit the mainstream\U{2014}it\U{2019}s real estate\U{2019}s best-kept secrets, Arkhived for you."

  lemma HookTextLength()
    ensures |HookText| == 277
  {
  }

  /** String.prototype.slice(0, n) for a non-negative `n`: at most `n` leading characters. */
  function Prefix(s: string, n: nat): (r: string)
    ensures |r| == (if n <= |s| then n else |s|)
    ensures r <= s
  {
    if n <= |s| then s[..n] else s
  }

  class Hook {
    /** typingRef.current: the handle of the running interval, or null. */
    var typingRef: Option<nat>
    /** The intervals the browser is currently running for this component. */
    var intervals: set<nat>
    /** The next handle setInterval hands out; handles start at 1, so each is truthy. */
    var nextHandle: nat
    /** The running interval's closure counter `idx`. */
    var idx: nat
    var typedText: string
    var showHook: bool

    /** Timer bookkeeping: at most one interval runs, and typingRef names it. */
    predicate Registry()
      reads this
    {
      && 0 < nextHandle
      && (typingRef.None? ==> intervals == {})
      && (typingRef.Some? ==> intervals == {typingRef.value} && 0 < typingRef.value < nextHandle)
    }

    /** What every handler keeps: the bookkeeping above, the shown text is a
        prefix of the hook text, and a running interval has shown exactly
        `idx` characters with more to come. */
    predicate Valid()
      reads this
    {
      && Registry()
      && typedText <= HookText
      && (typingRef.Some? ==> idx < |HookText| && typedText == HookText[..idx])
    }

    predicate Running()
      reads this
    {
      typingRef.Some?
    }

    /** The blinking cursor is rendered while the hook is shown and not yet fully typed. */
    function CursorVisible(): (r: bool)
      reads this
      ensures r ==> showHook
    {
      showHook && |typedText| < |HookText|
    }

    /** The states the three handlers leave the hook in: hidden and blank, or
        shown and either still typing or fully typed. */
    predicate Settled()
      reads this
    {
      && (!showHook ==> !Running() && typedText == "")
      && (showHook && !Running() ==> typedText == HookText)
    }

    constructor()
      ensures Valid() && Settled()
      ensures typingRef == None && intervals == {} && typedText == "" && !showHook
    {
      typingRef := None;
      intervals := {};
      nextHandle := 1;
      idx := 0;
      typedText := "";
      showHook := false;
    }

    /** stopTyping: clears the running interval, if any; the text stays as typed. */
    method StopTyping()
      requires Registry()
      modifies this
      ensures Registry() && !Running() && intervals == {}
      ensures typedText == old(typedText) && showHook == old(showHook)
      ensures nextHandle == old(nextHandle) && idx == old(idx)
    {
      if typingRef.Some? && typingRef.value != 0 {
        intervals := intervals - {typingRef.value};
        typingRef := None;
      }
    }

    /** startTyping (mouse enter): stops any running interval, blanks the text,
        shows the hook and starts a fresh interval from index 0. */
    method StartTyping()
      requires Valid()
      modifies this
      ensures Valid() && Settled() && Running()
      ensures typedText == "" && showHook && idx == 0
      ensures typingRef.value !in old(intervals) && intervals == {typingRef.value}
      ensures CursorVisible()
    {
      StopTyping();
      typedText := "";
      showHook := true;
      idx := 0;
      var handle := nextHandle;
      nextHandle := nextHandle + 1;
      intervals := intervals + {handle};
      typingRef := Some(handle);
    }

    /** One firing of the interval: advance `idx`, show that many characters,
        and stop once the whole text is shown. */
    method Tick()
      requires Valid() && Running()
      modifies this
      ensures Valid()
      ensures idx == old(idx) + 1 && typedText == HookText[..idx]
      ensures |typedText| == |old(typedText)| + 1
      ensures showHook == old(showHook) && nextHandle == old(nextHandle)
      ensures Running() <==> idx < |HookText|
      ensures Running() ==> typingRef == old(typingRef)
      ensures old(Settled()) ==> Settled()
    {
      idx := idx + 1;
      typedText := Prefix(HookText, idx);
      if idx >= |HookText| {
        StopTyping();
      }
    }

    /** Mouse leave: stop, blank the text and hide the hook. */
    method MouseLeave()
      requires Valid()
      modifies this
      ensures Valid() && Settled() && !Running() && intervals == {}
      ensures typedText == "" && !showHook && !CursorVisible()
    {
      StopTyping();
      typedText := "";
      showHook := false;
    }

    /** In a settled state the cursor blinks exactly while the interval runs. */
    lemma CursorWhileTyping()
      requires Valid() && Settled()
      ensures CursorVisible() <==> Running()
    {
    }
  }

  /** A hover that lasts long enough types the whole text: after StartTyping,
      `n` ticks show the first `n` characters, and the 277th tick stops the
      interval with the full text shown. */
  method HoverTypes(h: Hook, n: nat) returns (shown: string)
    requires h.Valid() && n <= |HookText|
    modifies h
    ensures shown == HookText[..n] && h.typedText == shown
    ensures h.Running() <==> n < |HookText|
    ensures h.Valid() && h.Settled() && h.showHook
  {
    h.StartTyping();
    var i := 0;
    while i < n
      invariant 0 <= i <= n
      invariant h.Valid() && h.Settled() && h.showHook
      invariant h.idx == i && h.typedText == HookText[..i]
      invariant h.Running() <==> i < |HookText|
    {
      h.Tick();
      i := i + 1;
    }
    shown := h.typedText;
  }
}
