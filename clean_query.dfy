// searcher.go:670-690: cleanFieldQuery, which GetCorrectedQuery and
// GetRelatedQuery apply to the stored query. It turns " AND " and " OR "
// into single spaces, then rewrites every "name:value" term the regular
// expression (^|\s)([0-9A-Za-z_\.-]+):([^\s]+) finds: a term of an unknown
// field stays, a term of a boolean field goes, and a term of another field
// keeps only a parenthesised value, without its parentheses.
module CleanQueries {
  import opened Types
  import opened GoStrings
  import opened Command
  import opened Fields
  import SearchText

  const AndWord: Bytes := [Space, 0x41, 0x4E, 0x44, Space]   // " AND "

  /**
   * strings.NewReplacer(" AND ", " ", " OR ", " ").Replace(s): scanning
   * from the left, each occurrence of either word becomes one space and the
   * scan goes on after it; every other byte is copied.
   */
  function ReplaceAndOr(s: Bytes): (r: Bytes)
    ensures |r| <= |s|
    decreases |s|
  {
    if s == [] then []
    else if HasPrefix(s, AndWord) then [Space] + ReplaceAndOr(s[|AndWord|..])
    else if HasPrefix(s, SearchText.OrWord) then [Space] + ReplaceAndOr(s[|SearchText.OrWord|..])
    else [s[0]] + ReplaceAndOr(s[1..])
  }

  /** Text without a space holds neither word and is copied unchanged. */
  lemma {:induction false} ReplaceAndOrSpaceFree(s: Bytes)
    requires Space !in s
    ensures ReplaceAndOr(s) == s
    decreases |s|
  {
    if s != [] {
      assert !HasPrefix(s, AndWord) && !HasPrefix(s, SearchText.OrWord) by {
        assert AndWord[0] == Space && SearchText.OrWord[0] == Space;
      }
      ReplaceAndOrSpaceFree(s[1..]);
      assert [s[0]] + s[1..] == s;
    }
  }

  /** An example: "a AND b" becomes "a b", the " AND " replaced by one space. */
  lemma ReplaceAndOrExample()
    ensures ReplaceAndOr([0x61] + AndWord + [0x62]) == [0x61, Space, 0x62]
  {
    var s: Bytes := [0x61] + AndWord + [0x62];
    assert s[0] == 0x61 && AndWord[0] == Space && SearchText.OrWord[0] == Space;
    assert !HasPrefix(s, AndWord) && !HasPrefix(s, SearchText.OrWord);
    assert s[1..] == AndWord + [0x62];
    assert HasPrefix(s[1..], AndWord) && s[1..][5..] == [0x62];
    ReplaceAndOrSpaceFree([0x62]);
    assert ReplaceAndOr(s[1..]) == [Space, 0x62];
    assert ReplaceAndOr(s) == [0x61] + ReplaceAndOr(s[1..]);
  }

  // ---------------------------------------------------------------------
  // The regular expression, matched the way Go's regexp package does:
  // the leftmost start wins, "^" is tried before "\s", and both runs are greedy.

  /** \s in Go's syntax: tab, newline, form feed, carriage return and space. */
  predicate IsSpaceByte(b: byte)
  {
    b == Tab || b == Newline || b == 0x0C || b == Return || b == Space
  }

  /** [0-9A-Za-z_\.-]. */
  predicate IsNameByte(b: byte)
  {
    (0x30 <= b <= 0x39) || (0x41 <= b <= 0x5A) || (0x61 <= b <= 0x7A) || b == 0x5F || b == 0x2E || b == 0x2D
  }

  /** The end of the longest run of name bytes starting at i. */
  function NameRun(s: Bytes, i: nat): (n: nat)
    requires i <= |s|
    ensures i <= n <= |s|
    ensures forall k :: i <= k < n ==> IsNameByte(s[k])
    ensures n < |s| ==> !IsNameByte(s[n])
    decreases |s| - i
  {
    if i < |s| && IsNameByte(s[i]) then NameRun(s, i + 1) else i
  }

  /** The end of the longest run of bytes other than \s starting at i. */
  function NonSpaceRun(s: Bytes, i: nat): (n: nat)
    requires i <= |s|
    ensures i <= n <= |s|
    ensures forall k :: i <= k < n ==> !IsSpaceByte(s[k])
    ensures n < |s| ==> IsSpaceByte(s[n])
    decreases |s| - i
  {
    if i < |s| && !IsSpaceByte(s[i]) then NonSpaceRun(s, i + 1) else i
  }

  /**
   * How a match is laid out: the whole match, then group 1 (empty, or one
   * \s byte), group 2 (the name, at least one byte), a colon, and group 3
   * (the value, at least one byte), each following the last.
   */
  predicate MatchShape(s: Bytes, m: seq<Span>)
  {
    |m| == 4
    && m[0].lo == m[1].lo && m[1].hi == m[2].lo && m[2].hi + 1 == m[3].lo && m[3].hi == m[0].hi
    && m[1].lo <= m[1].hi <= m[1].lo + 1 && m[2].lo < m[2].hi && m[3].lo < m[3].hi && m[0].hi <= |s|
    && s[m[2].hi] == Colon
    && (m[1].lo < m[1].hi ==> IsSpaceByte(s[m[1].lo]))
  }

  /** The name, colon and value of a match whose group 1 is [lo, hi). */
  function TailMatch(s: Bytes, lo: nat, hi: nat): (r: Option<seq<Span>>)
    requires lo <= hi <= |s| && hi <= lo + 1
    requires lo < hi ==> IsSpaceByte(s[lo])
    ensures r.Some? ==> MatchShape(s, r.value) && r.value[0].lo == lo && r.value[1].hi == hi
  {
    var n := NameRun(s, hi);
    if n == hi || n == |s| || s[n] != Colon then None
    else
      var v := NonSpaceRun(s, n + 1);
      if v == n + 1 then None
      else Some([Span(lo, v), Span(lo, hi), Span(hi, n), Span(n + 1, v)])
  }

  /** The match starting at p, if any: at the start of the text "^" is tried first. */
  function MatchAt(s: Bytes, p: nat): (r: Option<seq<Span>>)
    requires p <= |s|
    ensures r.Some? ==> MatchShape(s, r.value) && r.value[0].lo == p
  {
    var anchored := if p == 0 then TailMatch(s, 0, 0) else None;
    if anchored.Some? then anchored
    else if p < |s| && IsSpaceByte(s[p]) then TailMatch(s, p, p + 1)
    else None
  }

  /** Matches laid out as the expression finds them: each well shaped, from p on, in order and apart. */
  predicate Ordered(s: Bytes, ms: seq<seq<Span>>, p: nat)
  {
    (forall k :: 0 <= k < |ms| ==> MatchShape(s, ms[k]) && p <= ms[k][0].lo)
    && (forall k, l :: 0 <= k < l < |ms| ==> ms[k][0].hi <= ms[l][0].lo)
  }

  lemma OrderedCons(s: Bytes, m: seq<Span>, rest: seq<seq<Span>>, p: nat)
    requires MatchShape(s, m) && p <= m[0].lo && Ordered(s, rest, m[0].hi)
    ensures Ordered(s, [m] + rest, p)
  {
    var ms := [m] + rest;
    assert forall k :: 1 <= k < |ms| ==> ms[k] == rest[k - 1];
  }

  lemma OrderedWellFormed(s: Bytes, ms: seq<seq<Span>>, p: nat)
    requires Ordered(s, ms, p)
    ensures WellFormedMatches(s, ms)
  {
    forall k, j | 0 <= k < |ms| && 0 <= j < |ms[k]|
      ensures ms[k][j].lo <= ms[k][j].hi <= |s|
    {
      assert MatchShape(s, ms[k]);
    }
  }

  /** FindAllSubmatchIndex from offset p on: each match is searched for where the last one ended. */
  function FindFrom(s: Bytes, p: nat): (ms: seq<seq<Span>>)
    requires p <= |s|
    ensures Ordered(s, ms, p)
    decreases |s| - p
  {
    if p == |s| then []
    else
      match MatchAt(s, p)
      case None => FindFrom(s, p + 1)
      case Some(m) =>
        var rest := FindFrom(s, m[0].hi);
        OrderedCons(s, m, rest, p);
        [m] + rest
  }

  /** FindAllSubmatchIndex(s, -1). */
  function FindAll(s: Bytes): (ms: seq<seq<Span>>)
    ensures WellFormedMatches(s, ms)
    ensures forall k :: 0 <= k < |ms| ==> MatchShape(s, ms[k])
  {
    var ms := FindFrom(s, 0);
    OrderedWellFormed(s, ms, 0);
    ms
  }

  // ---------------------------------------------------------------------
  // The callback and the whole cleaning.

  /**
   * The callback on the groups [whole, lead, name, value]. The regular
   * expression always gives four groups with a nonempty value; the other
   * cases, where Go would index out of range, give back the first group.
   */
  function FieldCallback(fm: map<Bytes, FieldMeta>, ms: seq<Bytes>): Bytes
  {
    if |ms| < 4 then (if ms == [] then [] else ms[0])
    else
      var value := ms[3];
      if ms[2] !in fm then ms[0]
      else if IsBoolIndex(fm[ms[2]]) then []
      else if value != [] && value[0] == OpenParen && value[|value| - 1] == CloseParen then
        ms[1] + Trim(value, {OpenParen, CloseParen})
      else ms[1]
  }

  /** cleanFieldQuery(query) over the field table fm. */
  function CleanFieldQuery(fm: map<Bytes, FieldMeta>, query: Bytes): Bytes
  {
    var q := ReplaceAndOr(query);
    ReplaceFrom(q, FindAll(q), ms => FieldCallback(fm, ms), 0, 0, [])
  }

  lemma CallbackUnknown(fm: map<Bytes, FieldMeta>, g: seq<Bytes>)
    requires |g| >= 4 && g[2] !in fm
    ensures FieldCallback(fm, g) == g[0]
  {
  }

  /** The groups of a match, from its shape. */
  lemma GroupsOfMatch(s: Bytes, m: seq<Span>)
    requires MatchShape(s, m)
    ensures Groups(s, m)[2] == s[m[2].lo..m[2].hi]
    ensures Groups(s, m)[0] == s[m[0].lo..m[0].hi]
  {
  }

  /** No "name:value" term the expression finds in q names a field of fm. */
  predicate NamesUnknown(fm: map<Bytes, FieldMeta>, q: Bytes)
  {
    forall k :: 0 <= k < |FindAll(q)| ==> q[FindAll(q)[k][2].lo..FindAll(q)[k][2].hi] !in fm
  }

  /**
   * When no term the expression finds names a known field, cleaning only
   * replaces " AND " and " OR ".
   */
  lemma CleanUnknownFields(fm: map<Bytes, FieldMeta>, query: Bytes)
    requires NamesUnknown(fm, ReplaceAndOr(query))
    ensures CleanFieldQuery(fm, query) == ReplaceAndOr(query)
  {
    var q := ReplaceAndOr(query);
    var ms := FindAll(q);
    var repl := (g: seq<Bytes>) => FieldCallback(fm, g);
    forall l | 0 <= l < |ms|
      ensures repl(Groups(q, ms[l])) == q[ms[l][0].lo..ms[l][0].hi]
    {
      GroupsOfMatch(q, ms[l]);
      assert q[ms[l][2].lo..ms[l][2].hi] !in fm;
      CallbackUnknown(fm, Groups(q, ms[l]));
    }
    ReplaceWithWholeMatch(q, ms, repl, 0, 0, []);
    assert [] + q[0..] == q;
  }

  /** With no fields at all, cleaning only replaces " AND " and " OR ". */
  lemma CleanWithoutFields(query: Bytes)
    ensures CleanFieldQuery(map[], query) == ReplaceAndOr(query)
  {
    CleanUnknownFields(map[], query);
  }

  /** A field name as the expression reads it: one or more of [0-9A-Za-z_.-]. */
  predicate NameText(name: Bytes)
  {
    name != [] && forall k :: 0 <= k < |name| ==> IsNameByte(name[k])
  }

  /** A value as the expression reads it: one or more bytes other than \s. */
  predicate ValueText(value: Bytes)
  {
    value != [] && forall k :: 0 <= k < |value| ==> !IsSpaceByte(value[k])
  }

  /** The one match of a query that is a single "name:value" term. */
  lemma SingleTermMatch(name: Bytes, value: Bytes)
    requires NameText(name) && ValueText(value)
    ensures var q := name + [Colon] + value;
      FindAll(q) == [[Span(0, |q|), Span(0, 0), Span(0, |name|), Span(|name| + 1, |q|)]]
  {
    var q := name + [Colon] + value;
    var n := |name|;
    assert forall k :: 0 <= k < n ==> q[k] == name[k];
    assert q[n] == Colon;
    assert NameRun(q, 0) == n;
    assert forall k :: n + 1 <= k < |q| ==> q[k] == value[k - n - 1];
    assert NonSpaceRun(q, n + 1) == |q|;
    var m := [Span(0, |q|), Span(0, 0), Span(0, n), Span(n + 1, |q|)];
    assert TailMatch(q, 0, 0) == Some(m);
    assert MatchAt(q, 0) == Some(m);
    assert FindFrom(q, |q|) == [];
    assert FindFrom(q, 0) == [m] + [];
  }

  /** Cleaning a query that is one "name:value" term is the callback on its groups. */
  lemma CleanOneMatch(fm: map<Bytes, FieldMeta>, name: Bytes, value: Bytes)
    requires NameText(name) && ValueText(value)
    ensures CleanFieldQuery(fm, name + [Colon] + value) == FieldCallback(fm, [name + [Colon] + value, [], name, value])
  {
    var q := name + [Colon] + value;
    TermSlices(name, value);
    ReplaceAndOrSpaceFree(q);
    SingleTermMatch(name, value);
    var m := [Span(0, |q|), Span(0, 0), Span(0, |name|), Span(|name| + 1, |q|)];
    OneMatchReplaced(q, m, (gs: seq<Bytes>) => FieldCallback(fm, gs));
    FourGroups(q, m);
  }

  /** The pieces of a "name:value" term, and it has no space. */
  lemma TermSlices(name: Bytes, value: Bytes)
    requires NameText(name) && ValueText(value)
    ensures var q := name + [Colon] + value;
      Space !in q && q[0..|q|] == q && q[0..0] == [] && q[0..|name|] == name && q[|name| + 1..|q|] == value
  {
    var q := name + [Colon] + value;
    forall k | 0 <= k < |q| ensures q[k] != Space {
      if k < |name| { assert q[k] == name[k]; }
      else if k > |name| { assert q[k] == value[k - |name| - 1]; }
    }
  }

  lemma FourGroups(str: Bytes, m: seq<Span>)
    requires |m| == 4 && forall j :: 0 <= j < 4 ==> m[j].lo <= m[j].hi <= |str|
    ensures Groups(str, m) == [str[m[0].lo..m[0].hi], str[m[1].lo..m[1].hi], str[m[2].lo..m[2].hi], str[m[3].lo..m[3].hi]]
  {
  }

  /** A single match covering the whole subject is replaced by the callback's value. */
  lemma OneMatchReplaced(q: Bytes, m: seq<Span>, repl: seq<Bytes> -> Bytes)
    requires |m| >= 1 && m[0] == Span(0, |q|) && WellFormedMatches(q, [m])
    ensures ReplaceFrom(q, [m], repl, 0, 0, []) == repl(Groups(q, m))
  {
    assert ReplaceFrom(q, [m], repl, 0, 0, []) == ReplaceFrom(q, [m], repl, 1, |q|, [] + q[0..0] + repl(Groups(q, m)));
    assert [] + q[0..0] + repl(Groups(q, m)) + q[|q|..] == repl(Groups(q, m));
  }

  /**
   * A query that is one "name:value" term: a term of an unknown field is
   * kept, one of a boolean field is dropped, and one of any other field is
   * dropped unless its value is parenthesised, when the bare value is kept.
   */
  lemma CleanSingleTerm(fm: map<Bytes, FieldMeta>, name: Bytes, value: Bytes)
    requires NameText(name) && ValueText(value)
    ensures name !in fm ==> CleanFieldQuery(fm, name + [Colon] + value) == name + [Colon] + value
    ensures name in fm && IsBoolIndex(fm[name]) ==> CleanFieldQuery(fm, name + [Colon] + value) == []
    ensures name in fm && !IsBoolIndex(fm[name]) && value[0] == OpenParen && value[|value| - 1] == CloseParen
      ==> CleanFieldQuery(fm, name + [Colon] + value) == Trim(value, {OpenParen, CloseParen})
    ensures name in fm && !IsBoolIndex(fm[name]) && !(value[0] == OpenParen && value[|value| - 1] == CloseParen)
      ==> CleanFieldQuery(fm, name + [Colon] + value) == []
  {
    CleanOneMatch(fm, name, value);
    assert [] + Trim(value, {OpenParen, CloseParen}) == Trim(value, {OpenParen, CloseParen});
  }
}
