/**
 * The two C# scorables that recognise a leading trigger phrase ("search about ",
 * "show me the article "): the state they pass on is the text after the trigger.
 * Both run the same code with a different trigger, so it is written once here.
 */
module TriggerScorables {
  import opened Wrappers
  import opened HandOffTypes
  import opened Text

  const SearchTrigger: string := "search about "
  const ShowArticleTrigger: string := "show me the article "

  /** The text is not blank and, trimmed, starts with the trigger up to case. */
  predicate Triggered(trigger: string, text: string) {
    !IsBlank(text) && StartsWithIgnoreCase(Trim(text), trigger)
  }

  /** A text is its first k characters followed by the rest. */
  lemma SplitAt(s: string, k: nat)
    requires k <= |s|
    ensures s == s[..k] + s[k..]
  {
  }

  /**
   * PrepareAsync as written: the trimmed text is tested for the trigger, but the
   * trigger's length is cut from the untrimmed text. The cut is always in range,
   * because trimming never lengthens the text.
   */
  function PrepareAsync(trigger: string, m: Message): (state: Option<string>)
    ensures state.Some? <==> m.isMessage && Triggered(trigger, m.text)
    ensures state.Some? ==> |trigger| <= |m.text| && m.text == m.text[..|trigger|] + state.value
  {
    if m.isMessage && Triggered(trigger, m.text) then
      SplitAt(m.text, |trigger|);
      Some(m.text[|trigger|..])
    else
      None
  }

  /** The scorable takes the message when the extracted state has some non-blank text. */
  function HasScore(state: Option<string>): bool {
    state.Some? && !IsBlank(state.value)
  }

  /** A text without the trigger (after trimming) is never taken. */
  lemma NoTriggerNoScore(trigger: string, m: Message)
    requires !StartsWithIgnoreCase(Trim(m.text), trigger)
    ensures PrepareAsync(trigger, m).None? && !HasScore(PrepareAsync(trigger, m))
  {
  }

  /**
   * As written, leading white space shifts the cut into the trigger itself: three
   * spaces before "search about x" leave "ut x" as the search text.
   */
  lemma LeadingWhiteSpaceShiftsCut(a: Address)
    ensures PrepareAsync(SearchTrigger, Message(true, "   " + SearchTrigger + "x", a)) == Some("ut x")
  {
    var text := "   " + SearchTrigger + "x";
    assert text[13..] == "ut x";
    assert text == "   " + (SearchTrigger + "x");
    assert SearchTrigger[0] == 's';
    PrepareOfPadded(SearchTrigger, "x", text, a);
  }

  /** The same shift for the article trigger: "   show me the article x" looks up "le x". */
  lemma LeadingWhiteSpaceShiftsArticleCut(a: Address)
    ensures PrepareAsync(ShowArticleTrigger, Message(true, "   " + ShowArticleTrigger + "x", a)) == Some("le x")
  {
    var text := "   " + ShowArticleTrigger + "x";
    assert text[20..] == "le x";
    assert text == "   " + (ShowArticleTrigger + "x");
    assert ShowArticleTrigger[0] == 's';
    PrepareOfPadded(ShowArticleTrigger, "x", text, a);
  }

  /** Three spaces before a trigger: the text is taken and scores, and it is cut |trigger| characters in. */
  lemma PrepareOfPadded(trigger: string, rest: string, text: string, a: Address)
    requires trigger != [] && rest != []
    requires !IsWhiteSpace(trigger[0]) && !IsWhiteSpace(rest[|rest| - 1])
    requires text == "   " + (trigger + rest)
    ensures PrepareAsync(trigger, Message(true, text, a)) == Some(text[|trigger|..])
    ensures HasScore(PrepareAsync(trigger, Message(true, text, a)))
  {
    var t := trigger + rest;
    TrimOfPadded(t);
    assert t[..|trigger|] == trigger;
    assert StartsWithIgnoreCase(Trim(text), trigger);
    assert !IsWhiteSpace(text[3]);
    var cut := text[|trigger|..];
    assert cut[|cut| - 1] == rest[|rest| - 1];
  }

  /** Trimming three leading spaces off a text that has no white space at either end. */
  lemma TrimOfPadded(t: string)
    requires t != [] && !IsWhiteSpace(t[0]) && !IsWhiteSpace(t[|t| - 1])
    ensures Trim("   " + t) == t
  {
    assert IsBlank("   ") by { assert "   "[0] == "   "[1] == "   "[2] == ' '; }
    TrimStartAfterBlank("   ", t);
    assert TrimStart(t) == t;
    assert TrimEnd(t) == t;
  }

  /** The evident intent: the text after the trigger in the trimmed text. */
  function PrepareTrimmed(trigger: string, m: Message): (state: Option<string>)
    ensures state.Some? <==> m.isMessage && Triggered(trigger, m.text)
    ensures state.Some? ==> Trim(m.text) == Trim(m.text)[..|trigger|] + state.value
  {
    if m.isMessage && Triggered(trigger, m.text) then
      var trimmed := Trim(m.text);
      SplitAt(trimmed, |trigger|);
      Some(trimmed[|trigger|..])
    else
      None
  }

  /** With the cut on the trimmed text, leading white space makes no difference. */
  lemma TrimmedIgnoresLeadingWhiteSpace(trigger: string, w: string, m: Message)
    requires IsBlank(w)
    ensures PrepareTrimmed(trigger, m.(text := w + m.text)) == PrepareTrimmed(trigger, m)
  {
    TrimStartAfterBlank(w, m.text);
    BlankIffTrimEmpty(w + m.text);
    BlankIffTrimEmpty(m.text);
  }
}
