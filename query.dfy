// query.go: the rewriting preQueryString applies to a search query before
// the searcher sends it, as functions of the schema's field table. The
// searcher always tokenizes with the default tokenizer (searcher.go:602),
// so the tokenizer here is Tokenizer.GetTokens.
module Queries {
  import opened Types
  import opened GoStrings
  import opened Fields
  import Tokenizer

  const Plus: byte := 0x2B
  const Minus: byte := 0x2D
  const Tilde: byte := 0x7E
  const Backslash: byte := 0x5C

  /** The cutset strings.Trim removes from both ends of a query: " \n\t\r". */
  const QueryCutset: set<byte> := {Space, Newline, Tab, Return}

  /** The bytes the replacer turns into a space. */
  predicate LineBreakOrTab(b: byte)
  {
    b == Tab || b == Newline || b == Return
  }

  predicate Blank(b: byte)
  {
    b == Space || LineBreakOrTab(b)
  }

  /** strings.NewReplacer("\t", " ", "\n", " ", "\r", " ").Replace(s). */
  function Spaced(s: Bytes): (r: Bytes)
    ensures |r| == |s|
    ensures forall i :: 0 <= i < |s| ==> r[i] == (if LineBreakOrTab(s[i]) then Space else s[i])
  {
    seq(|s|, i requires 0 <= i < |s| => if LineBreakOrTab(s[i]) then Space else s[i])
  }

  /** The parts preQueryString visits: the trimmed query, tabs and line breaks made spaces, split on spaces. */
  function Parts(query: Bytes): (parts: seq<Bytes>)
    ensures |parts| >= 1
    ensures forall k, j :: 0 <= k < |parts| && 0 <= j < |parts[k]| ==> !Blank(parts[k][j])
  {
    var s := Spaced(Trim(query, QueryCutset));
    SplitMembers(s, Space);
    Split(s, Space)
  }

  // ---------------------------------------------------------------------
  // The character class at query.go:30.

  /**
   * The pattern the regexp package receives: the Go literal doubles every
   * backslash, so the text is [\\x81-\\xfe] and not [\x81-\xfe].
   */
  const HighBytePattern: Bytes :=
    [0x5B, Backslash, Backslash, 0x78, 0x38, 0x31, Minus, Backslash, Backslash, 0x78, 0x66, 0x65, 0x5D]

  /** One class atom: an escaped byte (two bytes of text) or a plain one. */
  function Atom(s: Bytes): (r: (byte, nat))
    requires s != []
    ensures 1 <= r.1 <= |s|
  {
    if s[0] == Backslash && |s| >= 2 then (s[1], 2) else (s[0], 1)
  }

  /** The byte ranges a class body lists: single atoms and atom-atom ranges. */
  function ClassRanges(s: Bytes): seq<(byte, byte)>
    decreases |s|
  {
    if s == [] then []
    else
      var lo := Atom(s);
      if lo.1 + 1 < |s| && s[lo.1] == Minus then
        var hi := Atom(s[lo.1 + 1..]);
        [(lo.0, hi.0)] + ClassRanges(s[lo.1 + 1 + hi.1..])
      else [(lo.0, lo.0)] + ClassRanges(s[lo.1..])
  }

  predicate InRanges(ranges: seq<(byte, byte)>, b: byte)
  {
    exists k :: 0 <= k < |ranges| && ranges[k].0 <= b <= ranges[k].1
  }

  /** The bytes the class matches: '1'..'\\' (0x31 to 0x5C), 'e', 'f' and 'x'. */
  predicate HighByte(b: byte)
  {
    0x31 <= b <= 0x5C || b == 0x65 || b == 0x66 || b == 0x78
  }

  /** reg.Match(part): some byte of the part is in the class. */
  predicate MatchesClass(part: Bytes)
  {
    exists k :: 0 <= k < |part| && HighByte(part[k])
  }

  /** The ranges of the pattern, atom by atom, as the regexp package reads its class body. */
  lemma PatternRanges()
    ensures ClassRanges(HighBytePattern[1..|HighBytePattern| - 1])
         == [(Backslash, Backslash)] + ([(0x78, 0x78)] + ([(0x38, 0x38)]
            + ([(0x31, Backslash)] + ([(0x78, 0x78)] + ([(0x66, 0x66)] + [(0x65, 0x65)])))))
  {
    var range: Bytes := [0x31, Minus, Backslash, Backslash, 0x78, 0x66, 0x65];
    PatternBody(range);
    RangeTail(range);
    RangeHead(range, ClassRanges(range));
  }

  /** Between the brackets: an escaped '\\', 'x', '8', then the rest. */
  lemma PatternBody(range: Bytes)
    requires range == [0x31, Minus, Backslash, Backslash, 0x78, 0x66, 0x65]
    ensures HighBytePattern[1..|HighBytePattern| - 1] == [Backslash, Backslash, 0x78, 0x38] + range
  {
  }

  /** The class body's first three atoms, an escaped '\\', 'x' and '8', before a body that starts with '1'. */
  lemma RangeHead(range: Bytes, tail: seq<(byte, byte)>)
    requires |range| >= 2 && range[0] == 0x31 && ClassRanges(range) == tail
    ensures ClassRanges([Backslash, Backslash, 0x78, 0x38] + range) == [(Backslash, Backslash)] + ([(0x78, 0x78)] + ([(0x38, 0x38)] + tail))
  {
    var eight: Bytes := [0x38] + range;
    var ex: Bytes := [0x78] + eight;
    assert [Backslash, Backslash, 0x78, 0x38] + range == [Backslash, Backslash] + ex;
    PlainAtom(0x38, range);
    PlainAtom(0x78, eight);
    EscapedAtom(Backslash, ex);
  }

  /** The end of the class body, "1-\\\\xfe": the range '1'..'\\' and then 'x', 'f', 'e'. */
  lemma RangeTail(range: Bytes)
    requires range == [0x31, Minus, Backslash, Backslash, 0x78, 0x66, 0x65]
    ensures ClassRanges(range) == [(0x31, Backslash)] + ([(0x78, 0x78)] + ([(0x66, 0x66)] + [(0x65, 0x65)]))
  {
    var e: Bytes := [0x65];
    var fe: Bytes := [0x66] + e;
    var xfe: Bytes := [0x78] + fe;
    assert range == [0x31, Minus, Backslash, Backslash] + xfe;
    PlainAtom(0x65, []);
    assert [0x65] + [] == e;
    PlainAtom(0x66, e);
    PlainAtom(0x78, fe);
    RangeOfAtoms(0x31, Backslash, xfe);
  }

  lemma PlainAtom(c: byte, rest: Bytes)
    requires c != Backslash && (|rest| < 2 || rest[0] != Minus)
    ensures ClassRanges([c] + rest) == [(c, c)] + ClassRanges(rest)
  {
    assert ([c] + rest)[1..] == rest;
  }

  lemma EscapedAtom(c: byte, rest: Bytes)
    requires |rest| < 2 || rest[0] != Minus
    ensures ClassRanges([Backslash, c] + rest) == [(c, c)] + ClassRanges(rest)
  {
    assert ([Backslash, c] + rest)[2..] == rest;
  }

  /** A plain atom, '-', and an escaped atom make one range. */
  lemma RangeOfAtoms(lo: byte, hi: byte, rest: Bytes)
    requires lo != Backslash
    ensures ClassRanges([lo, Minus, Backslash, hi] + rest) == [(lo, hi)] + ClassRanges(rest)
  {
    var s := [lo, Minus, Backslash, hi] + rest;
    assert s[2..] == [Backslash, hi] + rest && s[4..] == rest;
  }

  /** What the pattern matches is exactly HighByte. */
  lemma PatternClass(b: byte)
    ensures InRanges(ClassRanges(HighBytePattern[1..|HighBytePattern| - 1]), b) <==> HighByte(b)
  {
    PatternRanges();
    var rs := ClassRanges(HighBytePattern[1..|HighBytePattern| - 1]);
    if HighByte(b) {
      if 0x31 <= b <= 0x5C {
        assert rs[3].0 <= b <= rs[3].1;
      } else if b == 0x65 {
        assert rs[6].0 <= b <= rs[6].1;
      } else if b == 0x66 {
        assert rs[5].0 <= b <= rs[5].1;
      } else {
        assert rs[1].0 <= b <= rs[1].1;
      }
    }
  }

  /** The class meets no byte from 0x81 to 0xFE: it only matches ASCII. */
  lemma ClassIsAscii(part: Bytes)
    requires forall k :: 0 <= k < |part| ==> 0x80 <= part[k] || !HighByte(part[k])
    ensures !MatchesClass(part)
  {
  }

  // ---------------------------------------------------------------------
  // Fielded parts.

  const LeadBytes: set<byte> := {Plus, Minus, Tilde, OpenParen}

  /** The end of the run of "+-~(" bytes that starts at i and stops before pos. */
  function LeadFrom(part: Bytes, pos: nat, i: nat): (n: nat)
    requires i <= pos <= |part|
    ensures i <= n <= pos
    ensures forall k :: i <= k < n ==> part[k] in LeadBytes
    ensures n < pos ==> part[n] !in LeadBytes
    decreases pos - i
  {
    if i < pos && part[i] in LeadBytes then LeadFrom(part, pos, i + 1) else i
  }

  /** A field that preQueryString rewrites for: known, and not a mixed (body) field. */
  predicate Registered(fm: map<Bytes, FieldMeta>, name: Bytes)
  {
    name in fm && fm[name].vno != MixedVno
  }

  /** The name a part gives before its first colon, when that colon is not its first byte. */
  function NameOf(part: Bytes): (r: Option<Bytes>)
    ensures r.Some? ==> var pos := IndexOf(part, [Colon]);
      pos > 0 && r.value == part[LeadFrom(part, pos, 0)..pos]
  {
    var pos := IndexOf(part, [Colon]);
    if pos > 0 then Some(part[LeadFrom(part, pos, 0)..pos]) else None
  }

  /** The field whose prefix a part registers, if any. */
  function PartField(fm: map<Bytes, FieldMeta>, part: Bytes): (r: Option<Bytes>)
    ensures r.Some? ==> NameOf(part) == r && Registered(fm, r.value)
    ensures r.None? ==> NameOf(part).None? || !Registered(fm, NameOf(part).value)
  {
    if NameOf(part).Some? && Registered(fm, NameOf(part).value) then NameOf(part) else None
  }

  function Lowered(terms: seq<Bytes>): (r: seq<Bytes>)
    ensures |r| == |terms| && forall k :: 0 <= k < |terms| ==> r[k] == ToLower(terms[k])
  {
    seq(|terms|, k requires 0 <= k < |terms| => ToLower(terms[k]))
  }

  /** The value of a fielded part: after the colon, without a closing parenthesis. */
  function ValueOf(part: Bytes, pos: nat): (v: Bytes)
    requires pos < |part| && part[pos] == Colon
  {
    if HasSuffix(part, [CloseParen]) then
      assert part[|part| - 1] == CloseParen;
      part[pos + 1..|part| - 1]
    else part[pos + 1..]
  }

  /**
   * A part naming a known field: the leading run, the name and a colon,
   * the value's tokens lowercased and joined with " name:", and the
   * closing parenthesis if the part had one.
   */
  function FieldRewrite(part: Bytes, pos: nat, i: nat): Bytes
    requires i <= pos < |part| && part[pos] == Colon
  {
    var name := part[i..pos];
    var terms := Lowered(Tokenizer.GetTokens(ValueOf(part, pos)));
    part[..i] + name + [Colon] + Join(terms, [Space] + name + [Colon])
      + (if HasSuffix(part, [CloseParen]) then [CloseParen] else [])
  }

  /** The wrap rule: "+x" or "-x" whose second byte is not '(' and which the class matches. */
  predicate Wraps(part: Bytes)
  {
    |part| > 1 && (part[0] == Plus || part[0] == Minus) && part[1] != OpenParen && MatchesClass(part)
  }

  /** What preQueryString writes for one nonempty part, after the separating space. */
  function Rewrite(fm: map<Bytes, FieldMeta>, part: Bytes): Bytes
  {
    var pos := IndexOf(part, [Colon]);
    if pos > 0 && Registered(fm, part[LeadFrom(part, pos, 0)..pos]) then FieldRewrite(part, pos, LeadFrom(part, pos, 0))
    else if Wraps(part) then part[..1] + [OpenParen] + part[1..] + [CloseParen]
    else part
  }

  /** The rewrites of the nonempty parts, in order. */
  function Pieces(fm: map<Bytes, FieldMeta>, parts: seq<Bytes>): seq<Bytes>
    decreases |parts|
  {
    if parts == [] then []
    else
      var last := parts[|parts| - 1];
      Pieces(fm, parts[..|parts| - 1]) + (if last == [] then [] else [Rewrite(fm, last)])
  }

  /** The buffer newQuery once the given pieces are written: a space before each. */
  function Buffered(ps: seq<Bytes>): Bytes
  {
    if ps == [] then [] else [Space] + Join(ps, [Space])
  }

  /** preQueryString(query), as far as the returned string goes. */
  function Normalized(fm: map<Bytes, FieldMeta>, query: Bytes): Bytes
  {
    TrimLeft(Buffered(Pieces(fm, Parts(query))), {Space})
  }

  // ---------------------------------------------------------------------
  // What the rewriting promises.

  /** A part that names no known non-body field and is not wrapped is copied unchanged. */
  lemma RewriteUnchanged(fm: map<Bytes, FieldMeta>, part: Bytes)
    requires PartField(fm, part).None? && !Wraps(part)
    ensures Rewrite(fm, part) == part
  {
  }

  /** A wrapped part becomes its sign, '(', the rest, and ')'. */
  lemma RewriteWrapped(fm: map<Bytes, FieldMeta>, part: Bytes)
    requires PartField(fm, part).None? && Wraps(part)
    ensures Rewrite(fm, part) == [part[0], OpenParen] + part[1..] + [CloseParen]
  {
  }

  /**
   * A part naming a known non-body field keeps everything up to its colon
   * and has the rest lowercased: the default tokenizer leaves a space-free
   * value whole, and ')' has no case.
   */
  lemma RewriteField(fm: map<Bytes, FieldMeta>, part: Bytes)
    requires Space !in part && PartField(fm, part).Some?
    ensures var pos := IndexOf(part, [Colon]);
      0 < pos < |part| && Rewrite(fm, part) == part[..pos + 1] + ToLower(part[pos + 1..])
  {
    var pos := IndexOf(part, [Colon]);
    assert part[pos..pos + 1] == [Colon];
    var i := LeadFrom(part, pos, 0);
    FieldRewriteLowers(part, pos, i);
  }

  lemma FieldRewriteLowers(part: Bytes, pos: nat, i: nat)
    requires i <= pos < |part| && part[pos] == Colon && Space !in part
    ensures FieldRewrite(part, pos, i) == part[..pos + 1] + ToLower(part[pos + 1..])
  {
    var value := ValueOf(part, pos);
    assert Space !in value;
    SplitFree(value, Space);
    assert Lowered(Tokenizer.GetTokens(value)) == [ToLower(value)];
    assert part[..i] + part[i..pos] + [Colon] == part[..pos + 1];
    if HasSuffix(part, [CloseParen]) {
      assert part[pos + 1..] == value + [CloseParen];
      ToLowerAppend(value, [CloseParen]);
    }
  }

  predicate BlankFree(s: Bytes)
  {
    forall j :: 0 <= j < |s| ==> !Blank(s[j])
  }

  /** Rewriting keeps a part's first byte and adds no blanks. */
  lemma RewriteShape(fm: map<Bytes, FieldMeta>, part: Bytes)
    requires part != [] && BlankFree(part)
    ensures var r := Rewrite(fm, part); r != [] && r[0] == part[0] && BlankFree(r)
  {
    if PartField(fm, part).Some? {
      RewriteField(fm, part);
      var pos := IndexOf(part, [Colon]);
      LowerTail(part, pos + 1);
    } else if Wraps(part) {
      RewriteWrapped(fm, part);
      WrapShape(part);
    } else {
      RewriteUnchanged(fm, part);
    }
  }

  lemma LowerTail(part: Bytes, k: nat)
    requires 0 < k <= |part| && BlankFree(part)
    ensures var r := part[..k] + ToLower(part[k..]); r != [] && r[0] == part[0] && BlankFree(r)
  {
    var low := ToLower(part[k..]);
    assert forall j :: 0 <= j < |low| ==> !Blank(low[j]) by {
      forall j | 0 <= j < |low| ensures !Blank(low[j]) {
        assert low[j] == LowerByte(part[k + j]);
      }
    }
  }

  lemma WrapShape(part: Bytes)
    requires |part| > 1 && BlankFree(part)
    ensures var r := [part[0], OpenParen] + part[1..] + [CloseParen]; r != [] && r[0] == part[0] && BlankFree(r)
  {
    var r := [part[0], OpenParen] + part[1..] + [CloseParen];
    assert forall j :: 2 <= j < |r| - 1 ==> r[j] == part[j - 1];
  }

  /** Writing a space and one more piece onto the buffer. */
  lemma BufferedAppend(ps: seq<Bytes>, r: Bytes)
    ensures Buffered(ps + [r]) == Buffered(ps) + [Space] + r
  {
    if ps != [] {
      JoinAppend(ps, r, [Space]);
    } else {
      assert ps + [r] == [r];
    }
  }

  /** The pieces of separator-free parts are nonempty, blank-free and start as their parts do. */
  lemma {:induction false} PiecesShape(fm: map<Bytes, FieldMeta>, parts: seq<Bytes>)
    requires forall k :: 0 <= k < |parts| ==> BlankFree(parts[k])
    ensures forall k :: 0 <= k < |Pieces(fm, parts)| ==> BlankFree(Pieces(fm, parts)[k])
    ensures forall k :: 0 <= k < |Pieces(fm, parts)| ==> Pieces(fm, parts)[k] != []
    decreases |parts|
  {
    if parts != [] {
      var init, last := parts[..|parts| - 1], parts[|parts| - 1];
      PiecesShape(fm, init);
      if last != [] {
        RewriteShape(fm, last);
      }
    }
  }

  /** The pieces of a query are nonempty and blank-free. */
  lemma QueryPiecesShape(fm: map<Bytes, FieldMeta>, query: Bytes)
    ensures forall k :: 0 <= k < |Pieces(fm, Parts(query))| ==>
      Pieces(fm, Parts(query))[k] != [] && BlankFree(Pieces(fm, Parts(query))[k])
  {
    PiecesShape(fm, Parts(query));
  }

  /**
   * preQueryString returns the rewritten nonempty parts joined by single
   * spaces: no leading space, tabs and line breaks only separate, and
   * splitting the result on spaces gives the pieces back.
   */
  lemma NormalizedJoins(fm: map<Bytes, FieldMeta>, query: Bytes)
    ensures Normalized(fm, query) == Join(Pieces(fm, Parts(query)), [Space])
    ensures Pieces(fm, Parts(query)) != [] ==> Split(Normalized(fm, query), Space) == Pieces(fm, Parts(query))
  {
    QueryPiecesShape(fm, query);
    TrimBuffered(Pieces(fm, Parts(query)));
  }

  /** Trimming the leading space off the buffer of nonempty blank-free pieces leaves their join. */
  lemma TrimBuffered(ps: seq<Bytes>)
    requires forall k :: 0 <= k < |ps| ==> ps[k] != [] && BlankFree(ps[k])
    ensures TrimLeft(Buffered(ps), {Space}) == Join(ps, [Space])
    ensures ps != [] ==> Split(Join(ps, [Space]), Space) == ps
  {
    if ps != [] {
      JoinHead(ps, [Space]);
      TrimOneLeading(Space, Join(ps, [Space]));
      SpaceFree(ps);
      SplitJoin(ps, Space);
    }
  }

  /** Blank-free pieces hold no space. */
  lemma SpaceFree(ps: seq<Bytes>)
    requires forall k :: 0 <= k < |ps| ==> ps[k] != [] && BlankFree(ps[k])
    ensures forall k :: 0 <= k < |ps| ==> Space !in ps[k]
  {
    forall k | 0 <= k < |ps| ensures Space !in ps[k] {
      assert BlankFree(ps[k]);
    }
  }
}
