/** JavaScript's `String.prototype.split` and `Array.prototype.join` on a
    non-empty separator, and decimal rendering of numbers, with the
    round-trip facts the cache protocol's line and reply formats rest on. */
module Text {
  import opened Wire

  const CRLF: string := "\r\n"
  const Space: string := " "

  /** `d` occurs in `s` starting at index `i`. */
  predicate OccursAt(s: string, d: string, i: int) {
    0 <= i && i + |d| <= |s| && s[i..i + |d|] == d
  }

  /** `s.includes(d)`. */
  predicate Contains(s: string, d: string) {
    exists i | 0 <= i <= |s| :: OccursAt(s, d, i)
  }

  /** `s.indexOf(d)`, with -1 as `None`: the first occurrence. */
  function IndexOf(s: string, d: string): (r: Option<nat>)
    requires |d| > 0
    ensures r.Some? ==> OccursAt(s, d, r.value)
    ensures r.None? <==> !Contains(s, d)
    decreases |s|
  {
    if |s| < |d| then
      assert forall j | 0 <= j <= |s| :: !OccursAt(s, d, j);
      None
    else if s[..|d|] == d then
      assert OccursAt(s, d, 0);
      Some(0)
    else
      match IndexOf(s[1..], d)
      case None =>
        assert forall j | 1 <= j <= |s| :: OccursAt(s, d, j) ==> OccursAt(s[1..], d, j - 1) by {
          forall j | 1 <= j <= |s| && OccursAt(s, d, j) ensures OccursAt(s[1..], d, j - 1) {
            ShiftOccurs(s, d, j);
          }
        }
        None
      case Some(k) =>
        ShiftOccurs(s, d, k + 1);
        Some(k + 1)
  }

  /** An occurrence past the first character is one in the tail, and back. */
  lemma ShiftOccurs(s: string, d: string, j: int)
    requires 1 <= j <= |s|
    ensures OccursAt(s, d, j) <==> OccursAt(s[1..], d, j - 1)
  {
    if j + |d| <= |s| {
      assert s[1..][j - 1..j - 1 + |d|] == s[j..j + |d|];
    }
  }

  /** The occurrence `IndexOf` finds is the first. */
  lemma {:induction false} IndexOfFirst(s: string, d: string)
    requires |d| > 0
    ensures IndexOf(s, d).Some? ==> forall j | 0 <= j < IndexOf(s, d).value :: !OccursAt(s, d, j)
    decreases |s|
  {
    if |s| >= |d| && s[..|d|] != d {
      match IndexOf(s[1..], d)
      case None =>
      case Some(k) =>
        IndexOfFirst(s[1..], d);
        assert forall j | 1 <= j < k + 1 :: OccursAt(s, d, j) ==> OccursAt(s[1..], d, j - 1) by {
          forall j | 1 <= j < k + 1 && OccursAt(s, d, j) ensures OccursAt(s[1..], d, j - 1) {
            ShiftOccurs(s, d, j);
          }
        }
        assert !OccursAt(s, d, 0);
    }
  }

  /** `s.split(d)`: the pieces between the occurrences of `d`, found left
      to right without overlap; text without `d` is one piece. */
  function Split(s: string, d: string): (r: seq<string>)
    requires |d| > 0
    ensures |r| >= 1
    ensures forall k | 0 <= k < |r| :: !Contains(r[k], d)
    decreases |s|
  {
    match IndexOf(s, d)
    case None => [s]
    case Some(i) =>
      var head := s[..i];
      assert !Contains(head, d) by {
        IndexOfFirst(s, d);
        forall j | 0 <= j <= |head| && OccursAt(head, d, j) ensures false {
          assert s[j..j + |d|] == head[j..j + |d|];
          assert OccursAt(s, d, j);
        }
      }
      [head] + Split(s[i + |d|..], d)
  }

  /** `fields.join(d)`. */
  function Join(fields: seq<string>, d: string): (s: string)
    requires |fields| >= 1
    decreases |fields|
  {
    if |fields| == 1 then fields[0] else fields[0] + d + Join(fields[1..], d)
  }

  /** A separator that cannot match across the end of a piece: one
      character, or two different ones (such as CRLF). */
  predicate SoloSeparator(d: string) {
    |d| == 1 || (|d| == 2 && d[0] != d[1])
  }

  /** In `f + d + rest` the first `d` is the one right after `f`. */
  lemma FirstSeparator(f: string, d: string, rest: string)
    requires SoloSeparator(d) && !Contains(f, d)
    ensures IndexOf(f + d + rest, d) == Some(|f|)
  {
    var s := f + d + rest;
    assert s[|f|..|f| + |d|] == d;
    forall j | 0 <= j < |f| && OccursAt(s, d, j) ensures false {
      if j + |d| <= |f| {
        assert f[j..j + |d|] == s[j..j + |d|];
        assert OccursAt(f, d, j);
      }
    }
    assert OccursAt(s, d, |f|);
    IndexOfFirst(s, d);
    var k := IndexOf(s, d).value;
    assert !(k > |f|);
  }

  /** Splitting joined pieces gives the pieces back, when no piece
      contains the separator. */
  lemma {:induction false} SplitJoin(fields: seq<string>, d: string)
    requires |fields| >= 1 && SoloSeparator(d)
    requires forall k | 0 <= k < |fields| :: !Contains(fields[k], d)
    ensures Split(Join(fields, d), d) == fields
    decreases |fields|
  {
    if |fields| == 1 {
    } else {
      var rest := Join(fields[1..], d);
      FirstSeparator(fields[0], d, rest);
      var s := fields[0] + d + rest;
      assert s[..|fields[0]|] == fields[0];
      assert s[|fields[0]| + |d|..] == rest;
      SplitJoin(fields[1..], d);
    }
  }

  /** `pieces[i]` of a split result: past the end it is `undefined`. */
  function Field(pieces: seq<string>, i: nat): (r: Option<string>)
    ensures r.Some? <==> i < |pieces|
    ensures r.Some? ==> r.value == pieces[i]
  {
    if i < |pieces| then Some(pieces[i]) else None
  }

  /** Text without the separator is one piece. */
  lemma SplitOne(a: string, d: string)
    requires |d| > 0 && !Contains(a, d)
    ensures Split(a, d) == [a]
  {
  }

  /** Two pieces joined and split again. */
  lemma SplitTwo(a: string, b: string, d: string)
    requires SoloSeparator(d)
    requires !Contains(a, d) && !Contains(b, d)
    ensures Split(a + d + b, d) == [a, b]
  {
    var fields := [a, b];
    assert fields[1..] == [b];
    SplitJoin(fields, d);
  }

  /** Three pieces joined and split again. */
  lemma SplitThree(a: string, b: string, c: string, d: string)
    requires SoloSeparator(d)
    requires !Contains(a, d) && !Contains(b, d) && !Contains(c, d)
    ensures Split(a + d + b + d + c, d) == [a, b, c]
  {
    var fields := [a, b, c];
    assert fields[1..] == [b, c];
    assert fields[1..][1..] == [c];
    assert Join(fields[1..], d) == b + d + c;
    assert Join(fields, d) == a + d + (b + d + c);
    assert a + d + (b + d + c) == a + d + b + d + c;
    SplitJoin(fields, d);
  }

  /** A piece without the separator, the separator, and the rest: the
      piece comes first, then the pieces of the rest. */
  lemma SplitCons(f: string, d: string, rest: string)
    requires SoloSeparator(d) && !Contains(f, d)
    ensures Split(f + d + rest, d) == [f] + Split(rest, d)
  {
    FirstSeparator(f, d, rest);
    var s := f + d + rest;
    assert s[..|f|] == f;
    assert s[|f| + |d|..] == rest;
  }

  /** The first piece of `f + d + rest` is `f`, whatever follows. */
  lemma FirstField(f: string, d: string, rest: string)
    requires SoloSeparator(d) && !Contains(f, d)
    ensures Split(f + d + rest, d)[0] == f
  {
    FirstSeparator(f, d, rest);
    assert (f + d + rest)[..|f|] == f;
  }

  /** Two texts without CRLF concatenate to one without it unless the
      first ends in `\r` and the second starts with `\n`. */
  lemma ConcatNoCrlf(a: string, b: string)
    requires !Contains(a, CRLF) && !Contains(b, CRLF)
    requires |a| == 0 || |b| == 0 || a[|a| - 1] != '\r' || b[0] != '\n'
    ensures !Contains(a + b, CRLF)
  {
    var t := a + b;
    forall i | 0 <= i <= |t| ensures !OccursAt(t, CRLF, i) {
      if i + 2 <= |a| {
        OccursInPrefix(a, b, CRLF, i);
      } else if i >= |a| {
        OccursInSuffix(a, b, CRLF, i);
      } else if i + 2 <= |t| {
        assert t[i..i + 2] == [a[|a| - 1], b[0]];
      }
    }
  }

  /** An occurrence that ends within `a` is one in `a + b`. */
  lemma OccursInPrefix(a: string, b: string, d: string, i: int)
    requires 0 <= i && i + |d| <= |a|
    ensures OccursAt(a + b, d, i) <==> OccursAt(a, d, i)
  {
    assert (a + b)[i..i + |d|] == a[i..i + |d|];
  }

  /** An occurrence that starts after `a` is one in `b`, shifted. */
  lemma OccursInSuffix(a: string, b: string, d: string, i: int)
    requires |a| <= i
    ensures OccursAt(a + b, d, i) <==> OccursAt(b, d, i - |a|)
  {
    if i + |d| <= |a + b| {
      assert (a + b)[i..i + |d|] == b[i - |a|..i - |a| + |d|];
    }
  }

  /** Splitting at the first occurrence: the piece before it, then the
      pieces of the rest. */
  lemma SplitAt(s: string, d: string, i: nat, r: seq<string>)
    requires |d| > 0 && IndexOf(s, d) == Some(i)
    requires r == Split(s, d)
    ensures i + |d| <= |s|
    ensures r == [s[..i]] + Split(s[i + |d|..], d)
  {
  }

  /** A text is its prefix, a middle of length `n`, and the rest. */
  lemma Reassemble(s: string, i: nat, n: nat)
    requires i + n <= |s|
    ensures s == s[..i] + s[i..i + n] + s[i + n..]
  {
  }

  lemma JoinCons(h: string, t: seq<string>, d: string)
    requires |t| >= 1
    ensures Join([h] + t, d) == h + d + Join(t, d)
  {
    assert ([h] + t)[1..] == t;
  }

  /** Joining the split pieces gives the text back. */
  lemma {:induction false} JoinSplit(s: string, d: string)
    requires |d| > 0
    ensures Join(Split(s, d), d) == s
    decreases |s|
  {
    match IndexOf(s, d)
    case None =>
    case Some(i) =>
      SplitAt(s, d, i, Split(s, d));
      var rest := s[i + |d|..];
      JoinCons(s[..i], Split(rest, d), d);
      JoinSplit(rest, d);
      Reassemble(s, i, |d|);
  }

  /** Text in which `d` does not occur in any concatenation with a piece
      on either side: no character of `d` appears in it. */
  predicate Avoids(s: string, d: string) {
    forall i | 0 <= i < |s| :: s[i] !in d
  }

  lemma AvoidsNotContains(s: string, d: string)
    requires |d| > 0 && Avoids(s, d)
    ensures !Contains(s, d)
  {
    forall i | 0 <= i <= |s| ensures !OccursAt(s, d, i) {
      if i + |d| <= |s| {
        assert s[i..i + |d|][0] == s[i];
      }
    }
  }

  lemma AvoidsConcat(a: string, b: string, d: string)
    requires Avoids(a, d) && Avoids(b, d)
    ensures Avoids(a + b, d)
  {
    forall i | 0 <= i < |a + b| ensures (a + b)[i] !in d {
      if i < |a| { assert (a + b)[i] == a[i]; } else { assert (a + b)[i] == b[i - |a|]; }
    }
  }

  // ---- decimal numbers ------------------------------------------------

  predicate IsDigit(c: char) { '0' <= c <= '9' }

  predicate AllDigits(s: string) {
    forall i | 0 <= i < |s| :: IsDigit(s[i])
  }

  function DigitChar(d: nat): (c: char)
    requires d < 10
    ensures IsDigit(c) && (c as int) - ('0' as int) == d
  {
    (('0' as int) + d) as char
  }

  /** `String(n)` for a non-negative integer: its decimal digits, most
      significant first, without leading zeros. */
  function Decimal(n: nat): (s: string)
    ensures |s| >= 1 && AllDigits(s)
    ensures |s| > 1 ==> s[0] != '0'
  {
    if n < 10 then [DigitChar(n)] else Decimal(n / 10) + [DigitChar(n % 10)]
  }

  /** The value of a string of decimal digits. */
  function DigitsValue(s: string): nat
    requires AllDigits(s)
    decreases |s|
  {
    if |s| == 0 then 0
    else DigitsValue(s[..|s| - 1]) * 10 + ((s[|s| - 1] as int) - ('0' as int))
  }

  /** Reads a decimal length field: non-empty, digits only. */
  function ParseDecimal(s: string): (r: Option<nat>)
    ensures r.Some? <==> |s| >= 1 && AllDigits(s)
  {
    if |s| >= 1 && AllDigits(s) then Some(DigitsValue(s)) else None
  }

  lemma {:induction false} DecimalValue(n: nat)
    ensures DigitsValue(Decimal(n)) == n
  {
    if n >= 10 {
      var s := Decimal(n);
      assert s[..|s| - 1] == Decimal(n / 10);
      DecimalValue(n / 10);
    }
  }

  /** Reading back a rendered number gives the number. */
  lemma DecimalRoundTrip(n: nat)
    ensures ParseDecimal(Decimal(n)) == Some(n)
  {
    DecimalValue(n);
  }

  /** Rendering is injective: different numbers print differently. */
  lemma DecimalInjective(m: nat, n: nat)
    requires Decimal(m) == Decimal(n)
    ensures m == n
  {
    DecimalValue(m);
    DecimalValue(n);
  }

  /** Digits avoid every protocol separator. */
  lemma DecimalAvoids(n: nat, d: string)
    requires forall i | 0 <= i < |d| :: !IsDigit(d[i])
    ensures Avoids(Decimal(n), d)
  {
    var s := Decimal(n);
    forall i | 0 <= i < |s| ensures s[i] !in d {
    }
  }
}
