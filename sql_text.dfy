/**
 * The string operations the ETL loaders build their SQL with: Python's
 * `str.rfind`, slicing with a possibly negative index, the
 * before-the-last-marker splice, and `template % text` with one string
 * argument.
 */
module SqlText {
  import opened Wrappers

  /** `marker` occurs in `s` starting at index `i`. */
  predicate OccursAt(s: string, marker: string, i: int)
  {
    0 <= i && i + |marker| <= |s| && s[i..i + |marker|] == marker
  }

  /** The highest start `<= from` of `marker` in `s`, or -1. */
  function RfindFrom(s: string, marker: string, from: int): (r: int)
    requires -1 <= from <= |s|
    ensures -1 <= r <= from
    ensures r == -1 <==> forall j :: 0 <= j <= from ==> !OccursAt(s, marker, j)
    ensures r != -1 ==> OccursAt(s, marker, r)
    ensures forall j :: r < j <= from ==> !OccursAt(s, marker, j)
    decreases from + 1
  {
    if from < 0 then -1
    else if OccursAt(s, marker, from) then from
    else RfindFrom(s, marker, from - 1)
  }

  /** `s.rfind(marker)`: the last occurrence, -1 when there is none (an empty marker is found at `len(s)`). */
  function Rfind(s: string, marker: string): (r: int)
    ensures -1 <= r <= |s|
    ensures r == -1 <==> forall j :: 0 <= j <= |s| ==> !OccursAt(s, marker, j)
    ensures r != -1 ==> OccursAt(s, marker, r)
    ensures forall j :: r < j <= |s| ==> !OccursAt(s, marker, j)
  {
    RfindFrom(s, marker, |s|)
  }

  /** Python's reading of a slice bound `i` on a string of length `n`: negative counts from the end. */
  function SliceBound(n: nat, i: int): (b: nat)
    ensures b <= n
    ensures 0 <= i <= n ==> b == i
    ensures -(n as int) <= i < 0 ==> b == n + i
    ensures i < -(n as int) ==> b == 0
  {
    if i < 0 then (if n + i < 0 then 0 else n + i) else if i > n then n else i
  }

  /**
   * `f"{q[:i]}{clause}{q[i:]}"` with `i = q.rfind(marker)`: the clause goes
   * just before the last occurrence of the marker, or, when the marker is
   * absent (`i == -1`), just before the last character.
   */
  function SpliceBeforeLast(q: string, marker: string, clause: string): (r: string)
    ensures |r| == |q| + |clause|
    ensures Rfind(q, marker) >= 0 ==>
              var i := Rfind(q, marker);
              r == q[..i] + clause + q[i..] && OccursAt(r, marker, i + |clause|)
    ensures Rfind(q, marker) == -1 && |q| > 0 ==> r == q[..|q| - 1] + clause + q[|q| - 1..]
    ensures q == [] ==> r == clause
  {
    var b := SliceBound(|q|, Rfind(q, marker));
    SpliceKeepsMarker(q, b, clause, marker);
    q[..b] + clause + q[b..]
  }

  /** A marker starting at the splice point starts right after the clause once it is inserted. */
  lemma SpliceKeepsMarker(q: string, b: nat, clause: string, marker: string)
    requires b <= |q|
    ensures OccursAt(q, marker, b) ==> OccursAt(q[..b] + clause + q[b..], marker, b + |clause|)
  {
    if OccursAt(q, marker, b) {
      var r := q[..b] + clause + q[b..];
      assert r[b + |clause|..b + |clause| + |marker|] == q[b..b + |marker|];
    }
  }

  // ---------------------------------------------------------------------------
  // `template % text`
  // ---------------------------------------------------------------------------

  predicate NoPercent(s: string)
  {
    forall i :: 0 <= i < |s| ==> s[i] != '%'
  }

  /** `p` in front of a formatted text; an exception passes through. */
  function Prefixed(p: string, r: Reply<string>): (q: Reply<string>)
    ensures q.Found? <==> r.Found?
    ensures r.Found? ==> q.value == p + r.value
    ensures !r.Found? ==> q == r
  {
    match r
    case Found(s) => Found(p + s)
    case NotFound => NotFound
    case Raised(e) => Raised(e)
  }

  lemma PrefixedTwice(p: string, q: string, r: Reply<string>)
    ensures Prefixed(p, Prefixed(q, r)) == Prefixed(p + q, r)
  {
    if r.Found? {
      assert p + (q + r.value) == (p + q) + r.value;
    }
  }

  /**
   * The rest of `template % text` once `used` says whether the one argument
   * has been consumed. `%s` takes the argument, `%%` is a percent sign; a
   * second `%s` is "not enough arguments" and an unused argument at the end
   * is "not all arguments converted" (both TypeError); a lone trailing `%`
   * or any other conversion is a ValueError.
   */
  function FormatFrom(t: string, text: string, used: bool): (r: Reply<string>)
    ensures !r.NotFound?
    ensures r.Raised? ==> r.fault == TypeError || r.fault == ValueError
    ensures r.Found? && !used ==> |r.value| >= |text|
    decreases |t|
  {
    if t == [] then (if used then Found([]) else Raised(TypeError))
    else if t[0] != '%' then Prefixed([t[0]], FormatFrom(t[1..], text, used))
    else if |t| == 1 then Raised(ValueError)
    else if t[1] == '%' then Prefixed("%", FormatFrom(t[2..], text, used))
    else if t[1] == 's' then (if used then Raised(TypeError) else Prefixed(text, FormatFrom(t[2..], text, true)))
    else Raised(ValueError)
  }

  /** `template % text` with a single `str` argument. */
  function Format(template: string, text: string): (r: Reply<string>)
    ensures !r.NotFound?
    ensures r.Raised? ==> r.fault == TypeError || r.fault == ValueError
    ensures r.Found? ==> |r.value| >= |text|
  {
    FormatFrom(template, text, false)
  }

  /** Text without `%` is copied through unchanged. */
  lemma {:induction false} FormatFromPlain(a: string, rest: string, text: string, used: bool)
    requires NoPercent(a)
    ensures FormatFrom(a + rest, text, used) == Prefixed(a, FormatFrom(rest, text, used))
    decreases |a|
  {
    if a != [] {
      assert (a + rest)[0] == a[0];
      assert (a + rest)[1..] == a[1..] + rest;
      FormatFromPlain(a[1..], rest, text, used);
      PrefixedTwice([a[0]], a[1..], FormatFrom(rest, text, used));
      assert [a[0]] + a[1..] == a;
    } else {
      assert a + rest == rest;
      var r := FormatFrom(rest, text, used);
      if r.Found? {
        assert a + r.value == r.value;
      }
    }
  }

  /** A template with exactly one `%s` and no other `%` is the argument spliced in at that place. */
  lemma FormatOnePlaceholder(a: string, b: string, text: string)
    requires NoPercent(a) && NoPercent(b)
    ensures Format(a + "%s" + b, text) == Found(a + text + b)
  {
    assert a + "%s" + b == a + ("%s" + b);
    FormatFromPlain(a, "%s" + b, text, false);
    assert ("%s" + b)[2..] == b;
    FormatFromPlain(b, [], text, true);
    assert b + [] == b;
    PrefixedTwice(a, text, Found(b));
    assert a + text + b == a + (text + b);
  }

  /** `%%` is a literal percent sign and consumes no argument. */
  lemma FormatEscapedPercent(a: string, b: string, c: string, text: string)
    requires NoPercent(a) && NoPercent(b) && NoPercent(c)
    ensures Format(a + "%%" + b + "%s" + c, text) == Found(a + "%" + b + text + c)
  {
    var t := a + "%%" + b + "%s" + c;
    assert t == a + ("%%" + (b + "%s" + c));
    FormatFromPlain(a, "%%" + (b + "%s" + c), text, false);
    assert ("%%" + (b + "%s" + c))[2..] == b + "%s" + c;
    FormatOnePlaceholder(b, c, text);
    PrefixedTwice(a, "%", Found(b + text + c));
    assert a + "%" + (b + text + c) == a + "%" + b + text + c;
  }

  /** A template without `%` leaves the argument unconverted: TypeError. */
  lemma FormatWithoutPlaceholderRaises(a: string, text: string)
    requires NoPercent(a)
    ensures Format(a, text) == Raised(TypeError)
  {
    FormatFromPlain(a, [], text, false);
    assert a + [] == a;
  }

  /** A template with two `%s` needs two arguments: TypeError. */
  lemma FormatTwoPlaceholdersRaises(a: string, b: string, c: string, text: string)
    requires NoPercent(a) && NoPercent(b)
    ensures Format(a + "%s" + b + "%s" + c, text) == Raised(TypeError)
  {
    var t := a + "%s" + b + "%s" + c;
    assert t == a + ("%s" + (b + "%s" + c));
    FormatFromPlain(a, "%s" + (b + "%s" + c), text, false);
    assert ("%s" + (b + "%s" + c))[2..] == b + ("%s" + c);
    FormatFromPlain(b, "%s" + c, text, true);
  }
}
