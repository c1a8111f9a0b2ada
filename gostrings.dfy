// The parts of Go's strings and strconv packages that the client relies on,
// over byte strings.
module GoStrings {
  import opened Types

  const Space: byte := 0x20
  const Tab: byte := 0x09
  const Newline: byte := 0x0A
  const Return: byte := 0x0D
  const Colon: byte := 0x3A
  const OpenParen: byte := 0x28
  const CloseParen: byte := 0x29
  const Slash: byte := 0x2F

  /** At most n leading bytes of s. */
  function Take(s: Bytes, n: nat): (r: Bytes)
    ensures |r| == if n <= |s| then n else |s|
    ensures r == s[..|r|]
  {
    if n <= |s| then s[..n] else s
  }

  /** s without its first n bytes (empty when s is shorter). */
  function Drop(s: Bytes, n: nat): (r: Bytes)
    ensures Take(s, n) + r == s
  {
    if n <= |s| then s[n..] else []
  }

  /** Number of occurrences of byte c in s. */
  function Count(s: Bytes, c: byte): nat
  {
    if s == [] then 0 else (if s[0] == c then 1 else 0) + Count(s[1..], c)
  }

  /**
   * strings.Split(s, sep) for a one-byte separator: the pieces between
   * consecutive occurrences of sep; never empty, and no piece holds sep.
   */
  function Split(s: Bytes, sep: byte): (r: seq<Bytes>)
    ensures |r| >= 1
    ensures forall i :: 0 <= i < |r| ==> sep !in r[i]
    ensures forall i :: 0 <= i < |r| ==> |r[i]| <= |s|
    decreases |s|
  {
    if s == [] then [[]]
    else if s[0] == sep then [[]] + Split(s[1..], sep)
    else
      var rest := Split(s[1..], sep);
      [[s[0]] + rest[0]] + rest[1..]
  }

  /** strings.Join(parts, sep). */
  function Join(parts: seq<Bytes>, sep: Bytes): Bytes
    decreases |parts|
  {
    if |parts| == 0 then []
    else if |parts| == 1 then parts[0]
    else parts[0] + sep + Join(parts[1..], sep)
  }

  /** Joining the pieces of a split with the same separator gives the input back. */
  lemma {:induction false} JoinSplit(s: Bytes, sep: byte)
    ensures Join(Split(s, sep), [sep]) == s
    decreases |s|
  {
    if s != [] {
      JoinSplit(s[1..], sep);
      if s[0] != sep {
        var rest := Split(s[1..], sep);
        if |rest| > 1 {
          assert Join(rest, [sep]) == rest[0] + [sep] + Join(rest[1..], [sep]);
          assert ([[s[0]] + rest[0]] + rest[1..])[1..] == rest[1..];
        }
      } else {
        assert ([[]] + Split(s[1..], sep))[1..] == Split(s[1..], sep);
      }
    }
  }

  /** A split yields one piece more than there are separators. */
  lemma {:induction false} SplitCount(s: Bytes, sep: byte)
    ensures |Split(s, sep)| == Count(s, sep) + 1
    decreases |s|
  {
    if s != [] {
      SplitCount(s[1..], sep);
    }
  }

  /** Splitting a join of separator-free pieces gives the pieces back. */
  lemma {:induction false} SplitJoin(parts: seq<Bytes>, sep: byte)
    requires |parts| >= 1
    requires forall i :: 0 <= i < |parts| ==> sep !in parts[i]
    ensures Split(Join(parts, [sep]), sep) == parts
    decreases |parts|, |parts[0]|
  {
    if |parts| == 1 {
      SplitFree(parts[0], sep);
    } else if parts[0] == [] {
      var tail := parts[1..];
      SplitJoin(tail, sep);
      assert Join(parts, [sep]) == [sep] + Join(tail, [sep]);
      assert Join(parts, [sep])[1..] == Join(tail, [sep]);
      assert [[]] + tail == parts;
    } else {
      var p := parts[0];
      var shorter := [p[1..]] + parts[1..];
      assert forall i :: 0 <= i < |shorter| ==> sep !in shorter[i] by {
        forall i | 0 <= i < |shorter| ensures sep !in shorter[i] {
          if i > 0 { assert shorter[i] == parts[i]; }
        }
      }
      SplitJoin(shorter, sep);
      SplitJoinStep(parts, shorter, sep);
    }
  }

  /** The step of SplitJoin that gives the first piece its first byte back. */
  lemma SplitJoinStep(parts: seq<Bytes>, shorter: seq<Bytes>, sep: byte)
    requires |parts| >= 2 && parts[0] != [] && parts[0][0] != sep
    requires shorter == [parts[0][1..]] + parts[1..]
    requires Split(Join(shorter, [sep]), sep) == shorter
    ensures Split(Join(parts, [sep]), sep) == parts
  {
    var p := parts[0];
    JoinShorter(parts, sep);
    SplitPrepend(p[0], Join(shorter, [sep]), sep);
    assert [p[0]] + p[1..] == p;
    assert [[p[0]] + shorter[0]] + shorter[1..] == parts;
  }

  /** Split of a string whose first byte is not the separator. */
  lemma SplitPrepend(c: byte, s: Bytes, sep: byte)
    requires c != sep
    ensures Split([c] + s, sep) == [[c] + Split(s, sep)[0]] + Split(s, sep)[1..]
  {
    assert ([c] + s)[1..] == s;
  }

  /** Moving the first byte of the first piece out of a join. */
  lemma JoinShorter(parts: seq<Bytes>, sep: byte)
    requires |parts| >= 2 && parts[0] != []
    ensures Join(parts, [sep]) == [parts[0][0]] + Join([parts[0][1..]] + parts[1..], [sep])
  {
    var p := parts[0];
    var shorter := [p[1..]] + parts[1..];
    assert shorter[1..] == parts[1..];
    assert p == [p[0]] + p[1..];
  }

  /** A string without the separator splits into itself alone. */
  lemma {:induction false} SplitFree(s: Bytes, sep: byte)
    requires sep !in s
    ensures Split(s, sep) == [s]
    decreases |s|
  {
    if s != [] {
      assert sep !in s[1..];
      SplitFree(s[1..], sep);
      assert [s[0]] + s[1..] == s;
    }
  }

  /** t occurs in s at offset k. */
  predicate OccursAt(s: Bytes, t: Bytes, k: nat)
  {
    k + |t| <= |s| && s[k..k + |t|] == t
  }

  /** strings.Index(s, t): the first offset of t in s, or -1. */
  function IndexOf(s: Bytes, t: Bytes): (r: int)
    ensures -1 <= r <= |s|
    ensures r >= 0 ==> OccursAt(s, t, r) && forall k: nat :: k < r ==> !OccursAt(s, t, k)
    ensures r < 0 ==> forall k: nat :: !OccursAt(s, t, k)
    decreases |s|
  {
    if |s| < |t| then -1
    else if s[..|t|] == t then 0
    else
      var k := IndexOf(s[1..], t);
      OccursShifted(s, t);
      assert !OccursAt(s, t, 0);
      if k < 0 then -1 else k + 1
  }

  /** An occurrence past offset 0 is an occurrence in the tail, one offset earlier. */
  lemma OccursShifted(s: Bytes, t: Bytes)
    requires s != []
    ensures forall j: nat :: 0 < j ==> (OccursAt(s, t, j) <==> OccursAt(s[1..], t, j - 1))
  {
    forall j: nat | 0 < j
      ensures OccursAt(s, t, j) <==> OccursAt(s[1..], t, j - 1)
    {
      if j + |t| <= |s| {
        var tail, a := s[1..], s[j..j + |t|];
        var b := tail[j - 1..j - 1 + |t|];
        assert forall m :: 0 <= m < |t| ==> a[m] == b[m];
        assert a == b;
      }
    }
  }

  /** strings.Contains(s, t). */
  predicate Contains(s: Bytes, t: Bytes)
  {
    IndexOf(s, t) >= 0
  }

  predicate HasPrefix(s: Bytes, p: Bytes)
  {
    |p| <= |s| && s[..|p|] == p
  }

  predicate HasSuffix(s: Bytes, p: Bytes)
  {
    |p| <= |s| && s[|s| - |p|..] == p
  }

  /** strings.TrimLeft(s, cutset) for a cutset of single bytes. */
  function TrimLeft(s: Bytes, cut: set<byte>): (r: Bytes)
    ensures |r| <= |s| && r == s[|s| - |r|..]
    ensures r == [] || r[0] !in cut
    ensures forall i :: 0 <= i < |s| - |r| ==> s[i] in cut
    decreases |s|
  {
    if s != [] && s[0] in cut then TrimLeft(s[1..], cut) else s
  }

  /** strings.TrimRight(s, cutset) for a cutset of single bytes. */
  function TrimRight(s: Bytes, cut: set<byte>): (r: Bytes)
    ensures |r| <= |s| && r == s[..|r|]
    ensures r == [] || r[|r| - 1] !in cut
    ensures forall i :: |r| <= i < |s| ==> s[i] in cut
    decreases |s|
  {
    if s != [] && s[|s| - 1] in cut then TrimRight(s[..|s| - 1], cut) else s
  }

  /** strings.Trim(s, cutset). */
  function Trim(s: Bytes, cut: set<byte>): Bytes
  {
    TrimRight(TrimLeft(s, cut), cut)
  }

  predicate IsUpper(b: byte) { 0x41 <= b <= 0x5A }

  function LowerByte(b: byte): (r: byte)
    ensures r == b || (IsUpper(b) && r == b + 0x20)
    ensures !IsUpper(r)
  {
    if IsUpper(b) then b + 0x20 else b
  }

  /** strings.ToLower on the ASCII letters. */
  function ToLower(s: Bytes): (r: Bytes)
    ensures |r| == |s|
    ensures forall i :: 0 <= i < |s| ==> r[i] == LowerByte(s[i])
  {
    seq(|s|, i requires 0 <= i < |s| => LowerByte(s[i]))
  }

  predicate IsDigit(b: byte) { 0x30 <= b <= 0x39 }

  predicate AllDigits(s: Bytes)
  {
    forall i :: 0 <= i < |s| ==> IsDigit(s[i])
  }

  /** strconv.Itoa for a non-negative value. */
  function Itoa(n: nat): (r: Bytes)
    ensures |r| >= 1 && AllDigits(r)
    ensures r[0] == 0x30 ==> n == 0
  {
    if n < 10 then [0x30 + n] else Itoa(n / 10) + [0x30 + n % 10]
  }

  /** The value of a string of decimal digits. */
  function DecimalValue(ds: Bytes): nat
    requires AllDigits(ds)
    decreases |ds|
  {
    if ds == [] then 0 else DecimalValue(ds[..|ds| - 1]) * 10 + (ds[|ds| - 1] - 0x30)
  }

  /** strconv.Atoi: optional sign, at least one digit, within int64. */
  function Atoi(s: Bytes): (r: Option<int>)
    ensures r.Some? ==> -0x8000_0000_0000_0000 <= r.value < 0x8000_0000_0000_0000
  {
    var signed := |s| > 0 && (s[0] == 0x2D || s[0] == 0x2B);
    var digits := if signed then s[1..] else s;
    if |digits| == 0 || !AllDigits(digits) then None
    else
      var v: int := if signed && s[0] == 0x2D then 0 - DecimalValue(digits) else DecimalValue(digits);
      if -0x8000_0000_0000_0000 <= v < 0x8000_0000_0000_0000 then Some(v) else None
  }

  lemma {:induction false} DecimalValueItoa(n: nat)
    ensures DecimalValue(Itoa(n)) == n
  {
    if n >= 10 {
      DecimalValueItoa(n / 10);
      var ds := Itoa(n / 10) + [0x30 + n % 10];
      assert ds[..|ds| - 1] == Itoa(n / 10);
    }
  }

  /** Atoi reads back what Itoa writes. */
  lemma AtoiItoa(n: nat)
    requires n < 0x8000_0000_0000_0000
    ensures Atoi(Itoa(n)) == Some(n)
  {
    DecimalValueItoa(n);
  }

  /** Every byte of a split's pieces is a byte of the input. */
  lemma {:induction false} SplitMembers(s: Bytes, sep: byte)
    ensures forall i, j :: 0 <= i < |Split(s, sep)| && 0 <= j < |Split(s, sep)[i]| ==> Split(s, sep)[i][j] in s
    decreases |s|
  {
    if s != [] {
      SplitMembers(s[1..], sep);
    }
  }

  /** Joining one more piece onto nonempty pieces. */
  lemma {:induction false} JoinAppend(parts: seq<Bytes>, p: Bytes, sep: Bytes)
    requires |parts| >= 1
    ensures Join(parts + [p], sep) == Join(parts, sep) + sep + p
    decreases |parts|
  {
    if |parts| == 1 {
      assert (parts + [p])[1..] == [p];
    } else {
      assert (parts + [p])[1..] == parts[1..] + [p];
      JoinAppend(parts[1..], p, sep);
    }
  }

  /** A join of pieces whose first is nonempty starts with that piece's first byte. */
  lemma JoinHead(parts: seq<Bytes>, sep: Bytes)
    requires |parts| >= 1 && parts[0] != []
    ensures Join(parts, sep) != [] && Join(parts, sep)[0] == parts[0][0]
  {
  }

  /** strings.TrimLeft drops one leading cut byte in front of a byte outside the cut. */
  lemma TrimOneLeading(c: byte, s: Bytes)
    requires s != [] && s[0] != c
    ensures TrimLeft([c] + s, {c}) == s
  {
    assert ([c] + s)[1..] == s;
  }

  /** strings.ToLower distributes over concatenation. */
  lemma ToLowerAppend(a: Bytes, b: Bytes)
    ensures ToLower(a + b) == ToLower(a) + ToLower(b)
  {
    assert forall i :: 0 <= i < |a + b| ==> ToLower(a + b)[i] == (ToLower(a) + ToLower(b))[i];
  }
}
