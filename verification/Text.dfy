/** Option and Result, in the shape of the source's `Option` and `Result`. */
module Wrappers {
  datatype Option<+T> = None | Some(value: T)

  datatype Result<+T, +E> = Ok(value: T) | Err(error: E) {
    predicate IsFailure() {
      Err?
    }

    function PropagateFailure<U>(): Result<U, E>
      requires Err?
    {
      Err(error)
    }

    function Extract(): T
      requires Ok?
    {
      value
    }
  }
}

/** ASCII text: the parts of Rust's `str` that the match-expression language relies on.
    A text is a sequence of characters, one byte each. */
module Text {
  import opened Wrappers

  predicate IsSpace(c: char) {
    c == ' ' || '\t' <= c <= '\r'
  }

  predicate IsAlnum(c: char) {
    '0' <= c <= '9' || 'a' <= c <= 'z' || 'A' <= c <= 'Z'
  }

  function LowerChar(c: char): char {
    if 'A' <= c <= 'Z' then c + 'a' - 'A' else c
  }

  function UpperChar(c: char): char {
    if 'a' <= c <= 'z' then c - 'a' + 'A' else c
  }

  function Lower(s: string): (r: string) {
    seq(|s|, i requires 0 <= i < |s| => LowerChar(s[i]))
  }

  function Upper(s: string): (r: string) {
    seq(|s|, i requires 0 <= i < |s| => UpperChar(s[i]))
  }

  predicate EqIgnoreCase(a: string, b: string) {
    Lower(a) == Lower(b)
  }

  predicate Blank(s: string) {
    forall i | 0 <= i < |s| :: IsSpace(s[i])
  }

  /** Neither end is white space. */
  predicate Trimmed(s: string) {
    s != "" ==> !IsSpace(s[0]) && !IsSpace(s[|s| - 1])
  }

  /** The position of the first character that is not white space, or the length. */
  function ContentStart(s: string): (n: nat)
    ensures n <= |s|
    ensures forall i | 0 <= i < n :: IsSpace(s[i])
    ensures n < |s| ==> !IsSpace(s[n])
  {
    if s == "" || !IsSpace(s[0]) then 0 else 1 + ContentStart(s[1..])
  }

  /** The position after the last character that is not white space, or zero. */
  function ContentEnd(s: string): (n: nat)
    ensures n <= |s|
    ensures forall i | n <= i < |s| :: IsSpace(s[i])
    ensures n > 0 ==> !IsSpace(s[n - 1])
  {
    if s == "" || !IsSpace(s[|s| - 1]) then |s| else ContentEnd(s[..|s| - 1])
  }

  function TrimStart(s: string): string {
    s[ContentStart(s)..]
  }

  function Trim(s: string): (r: string)
    ensures |r| <= |s| && Trimmed(r)
    ensures r == "" <==> Blank(s)
  {
    if ContentStart(s) < ContentEnd(s) then s[ContentStart(s)..ContentEnd(s)] else ""
  }

  /** `source.find(needle)`: the first position at which `needle` occurs. */
  function Find(s: string, needle: string): (r: Option<nat>) {
    FindFrom(s, needle, 0)
  }

  predicate OccursAt(s: string, needle: string, k: nat) {
    k + |needle| <= |s| && s[k..k + |needle|] == needle
  }

  function FindFrom(s: string, needle: string, from: nat): (r: Option<nat>)
    ensures r.Some? ==> OccursAt(s, needle, r.value) && from <= r.value
    ensures forall k: nat | from <= k && OccursAt(s, needle, k) :: r.Some? && r.value <= k
    decreases |s| - from
  {
    if OccursAt(s, needle, from) then Some(from)
    else if from >= |s| then None
    else FindFrom(s, needle, from + 1)
  }

  /** Where the trimmed text starts, computed as the source does: `find(trimmed).unwrap_or(0)`. */
  function TrimOffset(s: string): nat {
    match Find(s, Trim(s)) case Some(k) => k case None => 0
  }

  /** A text that is not blank is white space, its trimmed core, and white space; and the source's
      `find` locates exactly that core. */
  lemma TrimSplits(s: string)
    requires !Blank(s)
    ensures var k, t := ContentStart(s), Trim(s);
            && k + |t| <= |s| && s[k..k + |t|] == t
            && Blank(s[..k]) && Blank(s[k + |t|..])
            && TrimOffset(s) == k
  {
    var k, t := ContentStart(s), Trim(s);
    assert OccursAt(s, t, k);
    var f := Find(s, t).value;
    assert s[f] == s[f..f + |t|][0] == t[0];
  }

  lemma TrimCore(s: string)
    requires !Blank(s)
    ensures ContentStart(s) < ContentEnd(s) && Trim(s) == s[ContentStart(s)..ContentEnd(s)] && Trim(s) != ""
    ensures Blank(s[..ContentStart(s)]) && Blank(s[ContentEnd(s)..])
  {
  }

  /** Trimming is decided by any way of cutting the text into blank, trimmed and blank. */
  lemma TrimUnique(a: string, t: string, b: string)
    requires Blank(a) && Blank(b) && Trimmed(t) && t != ""
    ensures Trim(a + t + b) == t && TrimOffset(a + t + b) == |a|
  {
    var s := a + t + b;
    assert s[|a|] == t[0] && s[|a| + |t| - 1] == t[|t| - 1];
    var k, e := ContentStart(s), ContentEnd(s);
    assert forall i | 0 <= i < |a| :: s[i] == a[i];
    assert forall i | |a| + |t| <= i < |s| :: s[i] == b[i - |a| - |t|];
    assert k == |a| && e == |a| + |t|;
    TrimSplits(s);
  }

  lemma TrimIdempotent(s: string)
    ensures Trim(Trim(s)) == Trim(s)
    ensures Trim(s) != "" ==> TrimOffset(Trim(s)) == 0
  {
    var t := Trim(s);
    if t != "" {
      TrimUnique("", t, "");
      assert "" + t + "" == t;
    }
  }

  lemma LowerIdempotent(s: string)
    ensures Lower(Lower(s)) == Lower(s) && Lower(Upper(s)) == Lower(s)
  {
  }
}
