/** `formatText`: optional truncation with an ellipsis, then optional
    lower-casing, then optional upper-casing, in that fixed order. */
module Formatting {
  import opened Types
  import opened CaseMapping

  const Ellipsis: string := "..."

  /** The guard `options.truncate && text.length > options.truncate`: an absent
      or zero limit is falsy, and only text strictly longer than the limit is cut. */
  predicate Cuts(text: string, truncate: Option<nat>) {
    truncate.Some? && truncate.value != 0 && |text| > truncate.value
  }

  /** Length the formatted text must have, computed from the input length and
      the limit alone; no case option takes part. It restates the guard of
      `Cuts` on purpose, as a reference independent of the text itself. */
  function FormattedLength(len: nat, truncate: Option<nat>): nat {
    match truncate
    case Some(n) => if n != 0 && len > n then n + |Ellipsis| else len
    case None => len
  }

  /** The truncation step, applied to the original text. */
  function Truncate(text: string, truncate: Option<nat>): (r: string)
    ensures |r| == FormattedLength(|text|, truncate)
    ensures Cuts(text, truncate) ==>
              r[..truncate.value] == text[..truncate.value] && r[truncate.value..] == Ellipsis
    ensures !Cuts(text, truncate) ==> r == text
  {
    if Cuts(text, truncate) then text[..truncate.value] + Ellipsis else text
  }

  /** The case steps seen on one character: upper-casing runs last, so it
      decides whenever it is set. */
  function CaseOf(options: FormatOptions, c: char): char {
    if options.uppercase then UpperChar(c)
    else if options.lowercase then LowerChar(c)
    else c
  }

  function FormatText(text: string, options: FormatOptions): (r: string)
    ensures |r| == FormattedLength(|text|, options.truncate)
    ensures options.uppercase ==> NoAsciiLower(r)
    ensures options.lowercase && !options.uppercase ==> NoAsciiUpper(r)
    ensures !options.lowercase && !options.uppercase ==> r == Truncate(text, options.truncate)
  {
    var formatted := Truncate(text, options.truncate);
    var formatted := if options.lowercase then ToLower(formatted) else formatted;
    if options.uppercase then ToUpper(formatted) else formatted
  }

  /** With the default `{}` options the text comes back unchanged. */
  lemma DefaultOptionsIdentity(text: string)
    ensures FormatText(text, DefaultFormatOptions) == text
  {
  }

  /** A positive limit below the length keeps exactly the first `n` characters
      and appends the ellipsis, for `n + 3` characters in all. */
  lemma TruncationShape(text: string, n: nat)
    requires 0 < n < |text|
    ensures Truncate(text, Some(n)) == text[..n] + "..."
    ensures |Truncate(text, Some(n))| == n + 3
  {
  }

  /** No limit, a zero limit or a limit at least the length removes nothing
      and adds no ellipsis. */
  lemma NoTruncation(text: string, truncate: Option<nat>)
    requires truncate.None? || truncate.value == 0 || |text| <= truncate.value
    ensures Truncate(text, truncate) == text
  {
  }

  /** Each output character is the case-mapped character at the same position
      of the truncated text: formatting changes nothing else. */
  lemma FormatTextPointwise(text: string, options: FormatOptions)
    ensures |FormatText(text, options)| == |Truncate(text, options.truncate)|
    ensures forall i :: 0 <= i < |FormatText(text, options)| ==>
              FormatText(text, options)[i] == CaseOf(options, Truncate(text, options.truncate)[i])
  {
    var t := Truncate(text, options.truncate);
    forall i | 0 <= i < |t|
      ensures FormatText(text, options)[i] == CaseOf(options, t[i])
    {
      UpperAfterLowerChar(t[i]);
    }
  }

  /** Without truncation the output matches the input position by position
      through the applied case map. */
  lemma WithoutTruncationPointwise(text: string, options: FormatOptions)
    requires !Cuts(text, options.truncate)
    ensures |FormatText(text, options)| == |text|
    ensures forall i :: 0 <= i < |text| ==> FormatText(text, options)[i] == CaseOf(options, text[i])
  {
    FormatTextPointwise(text, options);
  }

  /** The output length never depends on the case flags. */
  lemma LengthIgnoresCase(text: string, a: FormatOptions, b: FormatOptions)
    requires a.truncate == b.truncate
    ensures |FormatText(text, a)| == |FormatText(text, b)|
  {
  }

  /** With both flags set, upper-casing wins: the result is the upper-cased
      truncated text, the same as with `uppercase` alone. */
  lemma UppercaseWins(text: string, options: FormatOptions)
    requires options.lowercase && options.uppercase
    ensures FormatText(text, options) == ToUpper(Truncate(text, options.truncate))
    ensures FormatText(text, options) == FormatText(text, options.(lowercase := false))
  {
    UpperAfterLower(Truncate(text, options.truncate));
  }

  /** Truncating before the case change, as the source does, gives the same
      text as changing the case first and truncating afterwards. */
  lemma TruncateCommutesWithCase(text: string, options: FormatOptions)
    ensures FormatText(text, options)
         == Truncate(FormatText(text, options.(truncate := None)), options.truncate)
  {
    var whole := FormatText(text, options.(truncate := None));
    FormatTextPointwise(text, options);
    FormatTextPointwise(text, options.(truncate := None));
    if Cuts(text, options.truncate) {
      var n := options.truncate.value;
      var r := FormatText(text, options);
      var t := Truncate(whole, options.truncate);
      forall i | 0 <= i < |r|
        ensures r[i] == t[i]
      {
        if i < n {
          assert r[i] == CaseOf(options, text[i]);
        } else {
          assert Truncate(text, options.truncate)[i] == '.';
          assert r[i] == '.';
        }
      }
    }
  }

  /** The worked example: `formatText("hello world", { truncate: 5 })` is `"hello..."`. */
  lemma ExampleTruncate()
    ensures FormatText("hello world", FormatOptions(Some(5), false, false)) == "hello..."
  {
  }

  /** The worked example: `formatText("HELLO", { lowercase: true, uppercase: true })` is `"HELLO"`. */
  lemma ExampleBothFlags()
    ensures FormatText("HELLO", FormatOptions(None, true, true)) == "HELLO"
  {
    UppercaseWins("HELLO", FormatOptions(None, true, true));
  }

  /** Truncation and lower-casing together: `formatText("Hello World",
      { truncate: 5, lowercase: true })` is `"hello..."`. */
  lemma ExampleTruncateLowercase()
    ensures FormatText("Hello World", FormatOptions(Some(5), true, false)) == "hello..."
  {
    assert Truncate("Hello World", Some(5)) == "Hello...";
    assert ToLower("Hello...") == "hello...";
  }

  /** Upper-casing changes every small letter: `formatText("Hello",
      { uppercase: true })` is `"HELLO"`. */
  lemma ExampleUppercase()
    ensures FormatText("Hello", FormatOptions(None, false, true)) == "HELLO"
  {
  }
}
