/**
 * The category menu of the knowledge-base explorer dialog: facet categories are
 * shown as "{value} ({count})" labels, and the chosen label is turned back into a
 * category by deleting every white-space-then-parenthesised group.
 */
module CategoryExplorer {
  import opened Wrappers
  import opened Text
  import opened HandOffTypes

  datatype Category = Category(value: string, count: int)

  /** The menu label: the category value, then its count in brackets, which reads back for a count that is not negative. */
  function Label(c: Category): (r: string)
    ensures |c.value| < |r| && r[..|c.value|] == c.value
    ensures c.count >= 0 ==> CountAt(r, c.value + " (", ")") == Some(c.count)
  {
    var shown := c.value + " (" + IntToString(c.count) + ")";
    if c.count >= 0 then
      CountAtRoundTrip(c.value + " (", c.count, ")");
      shown
    else
      shown
  }

  /** Builds one label per category, in order (the foreach that fills the choice list). */
  method FormatLabels(categories: seq<Category>) returns (labels: seq<string>)
    ensures |labels| == |categories|
    ensures forall i :: 0 <= i < |categories| ==> labels[i] == Label(categories[i])
  {
    labels := [];
    var i := 0;
    while i < |categories|
      invariant 0 <= i <= |categories|
      invariant |labels| == i
      invariant forall k :: 0 <= k < i ==> labels[k] == Label(categories[k])
    {
      labels := labels + [Label(categories[i])];
      i := i + 1;
    }
  }

  /** What the dialog does when it starts. */
  datatype Step =
    | PromptChoice(choices: seq<string>)
    | NoPrompt
    | SearchByCategory(category: string)

  /**
   * StartAsync: with no category given, the fetched facets are offered as a choice
   * (no prompt at all when there are none); with a category, it is searched directly.
   */
  method StartAsync(category: string, facets: seq<Category>) returns (step: Step)
    ensures !IsBlank(category) ==> step == SearchByCategory(category)
    ensures IsBlank(category) && facets == [] ==> step == NoPrompt
    ensures IsBlank(category) && facets != [] ==>
      step.PromptChoice? && |step.choices| == |facets|
      && forall i :: 0 <= i < |facets| ==> step.choices[i] == Label(facets[i])
  {
    if IsBlank(category) {
      if |facets| != 0 {
        var labels := FormatLabels(facets);
        step := PromptChoice(labels);
      } else {
        step := NoPrompt;
      }
    } else {
      step := SearchByCategory(category);
    }
  }

  /** Whether \s\([^)]*\) matches at position i: white space, "(", and a ")" somewhere after. */
  predicate GroupAt(s: string, i: nat) {
    i + 1 < |s| && IsWhiteSpace(s[i]) && s[i + 1] == '(' && ')' in s[i + 2..]
  }

  predicate IsClose(c: char) {
    c == ')'
  }

  /**
   * Regex.Replace(s, @"\s\([^)]*\)", ""): scanning left to right, each match (which
   * ends at the first ")" after its "(") is deleted and scanning resumes after it.
   */
  function Strip(s: string): (r: string)
    ensures |r| <= |s|
    ensures s == [] ==> r == []
    decreases |s|
  {
    if s == [] then []
    else if GroupAt(s, 0) then
      var close := FirstIndex(s[2..], IsClose);
      assert close.Some? by {
        var k :| 0 <= k < |s[2..]| && s[2..][k] == ')';
        assert IsClose(s[2..][k]);
      }
      Strip(s[close.value + 3..])
    else
      [s[0]] + Strip(s[1..])
  }

  /** Where the pattern matches nowhere, stripping changes nothing. */
  lemma {:induction false} StripWithoutGroups(s: string)
    requires forall i :: 0 <= i < |s| ==> !GroupAt(s, i)
    ensures Strip(s) == s
  {
    if s != [] {
      assert !GroupAt(s, 0);
      forall i | 0 <= i < |s[1..]| ensures !GroupAt(s[1..], i) {
        assert !GroupAt(s, i + 1);
        if i + 1 < |s[1..]| {
          assert s[1..][i + 2..] == s[i + 3..];
        }
      }
      StripWithoutGroups(s[1..]);
    }
  }

  /** No white space immediately followed by "(" anywhere in v. */
  predicate NoSpaceParen(v: string) {
    forall i :: 0 <= i < |v| - 1 ==> !(IsWhiteSpace(v[i]) && v[i + 1] == '(')
  }

  /** With no match at the first character, that character is kept and stripping goes on. */
  lemma StripFirstKept(v: string, rest: string)
    requires v != [] && NoSpaceParen(v)
    requires rest == [] || rest[0] != '(' || !IsWhiteSpace(v[|v| - 1])
    ensures Strip(v + rest) == [v[0]] + Strip(v[1..] + rest)
  {
    var s := v + rest;
    assert s[0] == v[0] && s[1..] == v[1..] + rest;
    if 1 < |s| && IsWhiteSpace(s[0]) {
      assert s[1] == if |v| >= 2 then v[1] else rest[0];
    }
    assert !GroupAt(s, 0);
  }

  /** A suffix of a text with no white space before "(" has none either. */
  lemma NoSpaceParenTail(v: string)
    requires v != [] && NoSpaceParen(v)
    ensures NoSpaceParen(v[1..])
  {
    forall i | 0 <= i < |v[1..]| - 1 ensures !(IsWhiteSpace(v[1..][i]) && v[1..][i + 1] == '(') {
      assert v[1..][i] == v[i + 1] && v[1..][i + 1] == v[i + 2];
    }
  }

  /** A prefix in which no match can start is kept as it is, and stripping goes on after it. */
  lemma {:induction false} StripKeepsPrefix(v: string, rest: string)
    requires NoSpaceParen(v)
    requires v == [] || rest == [] || rest[0] != '(' || !IsWhiteSpace(v[|v| - 1])
    ensures Strip(v + rest) == v + Strip(rest)
  {
    if v != [] {
      StripFirstKept(v, rest);
      NoSpaceParenTail(v);
      assert v[1..] == [] || v[1..][|v[1..]| - 1] == v[|v| - 1];
      StripKeepsPrefix(v[1..], rest);
      var tail := Strip(rest);
      assert [v[0]] + (v[1..] + tail) == v + tail by { assert v == [v[0]] + v[1..]; }
    } else {
      assert v + rest == rest;
    }
  }

  /** A count contains no ")". */
  lemma CountHasNoClose(n: int)
    ensures ')' !in IntToString(n)
  {
  }

  /** The " (count)" tail of a label is exactly one match, so it is deleted entirely. */
  lemma StripCountGroup(d: string)
    requires ')' !in d
    ensures Strip(" (" + d + ")") == []
  {
    var rest := " (" + d + ")";
    assert rest[2..] == d + ")";
    assert GroupAt(rest, 0) by {
      assert rest[2..][|d|] == ')';
    }
    var close := FirstIndex(rest[2..], IsClose);
    assert close == Some(|d|) by {
      forall j | 0 <= j < |d| ensures !IsClose(rest[2..][j]) {
        assert rest[2..][j] == d[j];
      }
      assert IsClose(rest[2..][|d|]);
    }
    assert rest[close.value + 3..] == [];
  }

  /**
   * Round trip: stripping the label of a category gives its value back, provided
   * the value has no white space immediately followed by "(".
   */
  lemma StripLabel(c: Category)
    requires NoSpaceParen(c.value)
    ensures Strip(Label(c)) == c.value
  {
    var d := IntToString(c.count);
    var rest := " (" + d + ")";
    assert Label(c) == c.value + rest;
    StripKeepsPrefix(c.value, rest);
    CountHasNoClose(c.count);
    StripCountGroup(d);
    assert c.value + [] == c.value;
  }
}
