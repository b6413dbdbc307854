/**
 * String, URL and session helpers of the core toolkit: the per-session map of
 * last record ids, match-string annotation for autocomplete results, reading
 * and setting the format extension of a URL, the keys of a `%(key)s` string
 * template, flattening of nested iterables and the link rewriting of an
 * error traceback.
 */
module Utils {
  import opened Wrappers
  import opened Strings

  // ===========================================================================
  // Last record ids in the session

  /** A record id as the callers pass it: an integer or its text. */
  datatype RecordId = IntId(i: int) | TextId(s: string)

  /** `int(record_id)`: None stands for the ValueError of a non-numeric text. */
  function IntValue(id: RecordId): (r: Option<int>)
    ensures id.IntId? ==> r == Some(id.i)
  {
    match id
    case IntId(i) => Some(i)
    case TextId(s) =>
      if |s| >= 1 && (s[0] == '-' || s[0] == '+') then
        var body := s[1..];
        if |body| >= 1 && forall k :: 0 <= k < |body| ==> IsDigit(body[k]) then
          var v: int := DecimalValue(body);
          Some(if s[0] == '-' then -v else v)
        else None
      else if |s| >= 1 && forall k :: 0 <= k < |s| ==> IsDigit(s[k]) then
        Some(DecimalValue(s))
      else None
  }

  /** The text of a number reads back as that number. */
  lemma NumeralIsInt(n: nat)
    ensures IntValue(TextId(Digits(n))) == Some(n)
  {
    DigitsRoundTrip(n);
  }

  /** A text without any digit is refused. */
  lemma {:induction false} NonNumericRefused(s: string)
    requires forall k :: 0 <= k < |s| ==> !IsDigit(s[k])
    ensures IntValue(TextId(s)) == None
  {
    if |s| >= 1 && (s[0] == '-' || s[0] == '+') {
      var body := s[1..];
      if |body| >= 1 {
        assert !IsDigit(body[0]) by { assert body[0] == s[1]; }
      }
    } else if |s| >= 1 {
      assert !IsDigit(s[0]);
    }
  }

  /**
   * The session: `rcvars` is None until the first id is stored (the RCVARS
   * entry of the session is absent), then a map from table names to ids.
   */
  class Session {
    var rcvars: Option<map<string, int>>

    constructor ()
      ensures rcvars == None
    {
      rcvars := None;
    }

    /** s3_get_last_record_id. */
    function GetLastRecordId(tablename: string): (r: Option<int>)
      reads this
      ensures r.Some? <==> rcvars.Some? && tablename in rcvars.value
      ensures r.Some? ==> r.value == rcvars.value[tablename]
    {
      if rcvars.Some? && tablename in rcvars.value then Some(rcvars.value[tablename]) else None
    }

    /** s3_store_last_record_id: False, and no change, when the id is not numeric. */
    method StoreLastRecordId(tablename: string, recordId: RecordId) returns (ok: bool)
      modifies this
      ensures ok <==> IntValue(recordId).Some?
      ensures !ok ==> rcvars == old(rcvars)
      ensures ok ==> GetLastRecordId(tablename) == IntValue(recordId)
      ensures ok ==> rcvars.Some? && rcvars.value.Keys == (if old(rcvars).Some? then old(rcvars).value.Keys else {}) + {tablename}
      ensures forall t :: t != tablename ==> GetLastRecordId(t) == old(GetLastRecordId(t))
    {
      var id := IntValue(recordId);
      if id.None? {
        return false;
      }
      if rcvars.None? {
        rcvars := Some(map[tablename := id.value]);
      } else {
        rcvars := Some(rcvars.value[tablename := id.value]);
      }
      return true;
    }

    /**
     * s3_remove_last_record_id: a table name (a non-empty one) removes that
     * entry only; no name removes the whole RCVARS entry. Always True.
     */
    method RemoveLastRecordId(tablename: Option<string>) returns (ok: bool)
      modifies this
      ensures ok
      ensures TruthyStr(tablename) ==> GetLastRecordId(tablename.value) == None
      ensures TruthyStr(tablename) ==> forall t :: t != tablename.value ==> GetLastRecordId(t) == old(GetLastRecordId(t))
      ensures TruthyStr(tablename) ==> (rcvars.Some? <==> old(rcvars).Some?)
      ensures !TruthyStr(tablename) ==> rcvars == None
    {
      if TruthyStr(tablename) {
        var t := tablename.value;
        if rcvars.Some? && t in rcvars.value {
          rcvars := Some(rcvars.value - {t});
        }
      } else {
        if rcvars.Some? {
          rcvars := None;
        }
      }
      return true;
    }
  }

  // ===========================================================================
  // Match strings for autocomplete results

  /** A value of the record dictionary: only strings take part in matching. */
  datatype Value = Str(s: string) | NonStr

  /** An insertion-ordered dictionary as a sequence of (key, value) pairs. */
  type Entries = seq<(string, Value)>

  predicate UniqueKeys(d: Entries) {
    forall i, j :: 0 <= i < j < |d| ==> d[i].0 != d[j].0
  }

  /** `key in d`. */
  predicate HasKey(d: Entries, k: string) {
    exists i :: 0 <= i < |d| && d[i].0 == k
  }

  /** `d.get(k)` for a string-valued entry. */
  function Lookup(d: Entries, k: string): Option<Value>
  {
    if d == [] then None else if d[0].0 == k then Some(d[0].1) else Lookup(d[1..], k)
  }

  /** `d[k] = v`: an existing key keeps its position, a new one goes last. */
  function DictSet(d: Entries, k: string, v: Value): (r: Entries)
    ensures Lookup(r, k) == Some(v)
    ensures forall k' :: k' != k ==> Lookup(r, k') == Lookup(d, k')
    ensures |r| == |d| || |r| == |d| + 1
  {
    if d == [] then [(k, v)]
    else if d[0].0 == k then [(k, v)] + d[1..]
    else [d[0]] + DictSet(d[1..], k, v)
  }

  /** How an entry matches the search term; an address match records where. */
  datatype Match = NoMatch | PrefixMatch | AddrMatch(pos: nat)

  /** Whether the entry (key, value) matches the lowercase search term. */
  function MatchOf(key: string, v: Value, term: string): (m: Match)
    ensures m.PrefixMatch? ==> v.Str? && |term| <= |v.s| && Lower(v.s[..|term|]) == term
    ensures m.AddrMatch? ==> v.Str? && key == "addr" && OccursAt(Lower(v.s), term, m.pos)
    ensures m == NoMatch <==> !v.Str? || (Lower(Slice(v.s, 0, |term|)) != term && (key != "addr" || !Contains(Lower(v.s), term)))
  {
    if !v.Str? then NoMatch
    else if Lower(Slice(v.s, 0, |term|)) == term then
      assert |Lower(Slice(v.s, 0, |term|))| == |term|;
      PrefixMatch
    else if key == "addr" && Find(Lower(v.s), term) >= 0 then AddrMatch(Find(Lower(v.s), term))
    else NoMatch
  }

  /** An address match is at the first occurrence of the term in the lowercased value. */
  lemma AddrMatchFirst(key: string, v: Value, term: string)
    requires MatchOf(key, v, term).AddrMatch?
    ensures forall j :: 0 <= j < MatchOf(key, v, term).pos ==> !OccursAt(Lower(v.s), term, j)
  {
  }

  /** `if s: d[k] = s`. */
  function SetIfNonEmpty(d: Entries, k: string, s: string): (r: Entries)
    ensures Lookup(r, k) == if s != "" then Some(Str(s)) else Lookup(d, k)
    ensures forall k' :: k' != k ==> Lookup(r, k') == Lookup(d, k')
    ensures Lookup(d, k) == None ==> StrOr(r, k) == s
  {
    if s != "" then DictSet(d, k, Str(s)) else d
  }

  /** The annotation entries written for the matching entry (key, Str(s)). */
  function Annotate(d: Entries, key: string, s: string, l: nat, m: Match): Entries
    requires m != NoMatch
    requires m.AddrMatch? ==> m.pos + l <= |s|
  {
    if m.PrefixMatch? then PrefixWrites(d, key, Slice(s, 0, l), Slice(s, l, |s|))
    else AddrWrites(d, key, s, l, m.pos)
  }

  /** match_type, match_string, then next_string when non-empty. */
  function PrefixWrites(d: Entries, key: string, m: string, next: string): Entries
  {
    var d1 := DictSet(d, "match_type", Str(key));
    var d2 := DictSet(d1, "match_string", Str(m));
    SetIfNonEmpty(d2, "next_string", next)
  }

  /** match_type, then pre_string and next_string when non-empty, then match_string. */
  function AddrWrites(d: Entries, key: string, s: string, l: nat, pos: nat): Entries
    requires pos + l <= |s|
  {
    AddrChain(d, key, s[..pos], Slice(s[pos..], 0, l), Slice(s, pos + l, |s|))
  }

  /** match_type, then pre_string and next_string when non-empty, then match_string. */
  function AddrChain(d: Entries, key: string, pre: string, m: string, next: string): Entries
  {
    var d1 := DictSet(d, "match_type", Str(key));
    var d2 := SetIfNonEmpty(d1, "pre_string", pre);
    var d3 := SetIfNonEmpty(d2, "next_string", next);
    DictSet(d3, "match_string", Str(m))
  }

  /** The index of the first entry that matches, or |d|. */
  function FirstMatch(d: Entries, term: string, from: nat): (i: nat)
    requires from <= |d|
    ensures from <= i <= |d|
    ensures i < |d| ==> MatchOf(d[i].0, d[i].1, term) != NoMatch
    ensures forall j :: from <= j < i ==> MatchOf(d[j].0, d[j].1, term) == NoMatch
    decreases |d| - from
  {
    if from == |d| then from
    else if MatchOf(d[from].0, d[from].1, term) != NoMatch then from
    else FirstMatch(d, term, from + 1)
  }

  /** The dictionary after s3_set_match_strings. */
  function MatchStrings(d: Entries, term: string): Entries
  {
    var i := FirstMatch(d, term, 0);
    if i == |d| then d
    else Annotate(d, d[i].0, d[i].1.s, |term|, MatchOf(d[i].0, d[i].1, term))
  }

  /**
   * The record dictionary that s3_set_match_strings annotates in place.
   */
  class MatchDict {
    var entries: Entries

    constructor (d: Entries)
      ensures entries == d
    {
      entries := d;
    }

    /**
     * s3_set_match_strings: annotate the first string entry that matches the
     * lowercase search term, then stop.
     */
    method SetMatchStrings(term: string)
      modifies this
      ensures entries == MatchStrings(old(entries), term)
    {
      var d := entries;
      var i := 0;
      while i < |d|
        invariant 0 <= i <= |d|
        invariant entries == d
        invariant forall j :: 0 <= j < i ==> MatchOf(d[j].0, d[j].1, term) == NoMatch
      {
        var key := d[i].0;
        var v := d[i].1;
        var m := MatchOf(key, v, term);
        if m != NoMatch {
          // match_type, match_string, and pre_string/next_string when non-empty
          entries := Annotate(entries, key, v.s, |term|, m);
          FirstMatchIs(d, term, 0, i);
          return;
        }
        i := i + 1;
      }
      FirstMatchIs(d, term, 0, |d|);
    }
  }

  lemma {:induction false} FirstMatchIs(d: Entries, term: string, from: nat, i: nat)
    requires from <= i <= |d|
    requires i < |d| ==> MatchOf(d[i].0, d[i].1, term) != NoMatch
    requires forall j :: from <= j < i ==> MatchOf(d[j].0, d[j].1, term) == NoMatch
    ensures FirstMatch(d, term, from) == i
    decreases i - from
  {
    if from < i {
      FirstMatchIs(d, term, from + 1, i);
    }
  }

  /** The string stored under `k`, "" when absent (as the client reads it). */
  function StrOr(d: Entries, k: string): string {
    match Lookup(d, k)
    case Some(Str(s)) => s
    case _ => ""
  }

  /**
   * A prefix match keeps the original case: the match string lowercases to
   * the term, and match string + next string give back the matched value.
   */
  lemma PrefixMatchReconstructs(d: Entries, term: string)
    requires !HasKey(d, "next_string")
    requires FirstMatch(d, term, 0) < |d|
    requires MatchOf(d[FirstMatch(d, term, 0)].0, d[FirstMatch(d, term, 0)].1, term) == PrefixMatch
    ensures var i := FirstMatch(d, term, 0);
            var r := MatchStrings(d, term);
            && Lookup(r, "match_type") == Some(Str(d[i].0))
            && Lower(StrOr(r, "match_string")) == term
            && StrOr(r, "match_string") + StrOr(r, "next_string") == d[i].1.s
  {
    var i := FirstMatch(d, term, 0);
    var s := d[i].1.s;
    PrefixEntries(d, d[i].0, Slice(s, 0, |term|), Slice(s, |term|, |s|));
    PrefixPieces(s, term);
  }

  /** Cutting the value after a prefix whose lowercase form is the term. */
  lemma PrefixPieces(s: string, term: string)
    requires |term| <= |s| && Lower(s[..|term|]) == term
    ensures Lower(Slice(s, 0, |term|)) == term
    ensures Slice(s, 0, |term|) + Slice(s, |term|, |s|) == s
  {
    assert Slice(s, 0, |term|) == s[..|term|];
    assert Slice(s, |term|, |s|) == s[|term|..];
    assert s[..|term|] + s[|term|..] == s;
  }

  /** The three writes of a prefix match, on a record without a next string. */
  lemma PrefixEntries(d: Entries, key: string, m: string, next: string)
    requires !HasKey(d, "next_string")
    ensures var r := PrefixWrites(d, key, m, next);
            && Lookup(r, "match_type") == Some(Str(key))
            && StrOr(r, "match_string") == m
            && StrOr(r, "next_string") == next
  {
    LookupAbsent(d, "next_string");
    var d1 := DictSet(d, "match_type", Str(key));
    var d2 := DictSet(d1, "match_string", Str(m));
    assert "next_string" != "match_type" && "next_string" != "match_string" && "match_type" != "match_string";
    assert Lookup(d1, "next_string") == None;
    assert Lookup(d2, "next_string") == None;
    assert Lookup(d2, "match_type") == Some(Str(key));
    assert Lookup(d2, "match_string") == Some(Str(m));
  }

  /**
   * An address match may start inside the value (after a house number):
   * pre string + match string + next string give back the value.
   */
  lemma AddrMatchReconstructs(d: Entries, term: string)
    requires !HasKey(d, "next_string") && !HasKey(d, "pre_string")
    requires FirstMatch(d, term, 0) < |d|
    requires MatchOf(d[FirstMatch(d, term, 0)].0, d[FirstMatch(d, term, 0)].1, term).AddrMatch?
    ensures d[FirstMatch(d, term, 0)].0 == "addr"
    ensures Lookup(MatchStrings(d, term), "match_type") == Some(Str("addr"))
    ensures Lower(StrOr(MatchStrings(d, term), "match_string")) == term
    ensures var r := MatchStrings(d, term);
            StrOr(r, "pre_string") + StrOr(r, "match_string") + StrOr(r, "next_string") == d[FirstMatch(d, term, 0)].1.s
  {
    var i := FirstMatch(d, term, 0);
    var s := d[i].1.s;
    var m := MatchOf(d[i].0, d[i].1, term);
    AddrPieces(s, term, m.pos);
    AddrEntries(d, d[i].0, s, |term|, m.pos);
  }

  /** Cutting the value around an occurrence of the term in its lowercase form. */
  lemma AddrPieces(s: string, term: string, pos: int)
    requires OccursAt(Lower(s), term, pos)
    ensures var m := Slice(s[pos..], 0, |term|);
            && Lower(m) == term
            && s[..pos] + m + Slice(s, pos + |term|, |s|) == s
  {
    var l := |term|;
    SliceCuts(s, pos, l);
    LowerSlice(s, pos, pos + l);
  }

  /** The three pieces of `s` around `s[pos..pos + l]`, as Slice cuts them. */
  lemma SliceCuts(s: string, pos: nat, l: nat)
    requires pos + l <= |s|
    ensures Slice(s[pos..], 0, l) == s[pos..pos + l]
    ensures s[..pos] + s[pos..pos + l] + Slice(s, pos + l, |s|) == s
  {
    assert Slice(s, pos + l, |s|) == s[pos + l..];
    assert s[..pos] + s[pos..pos + l] + s[pos + l..] == s;
  }

  /** Lowercasing commutes with slicing. */
  lemma LowerSlice(s: string, i: nat, j: nat)
    requires i <= j <= |s|
    ensures Lower(s[i..j]) == Lower(s)[i..j]
  {
  }

  /** The four writes of an address match, on a record without annotations. */
  lemma AddrEntries(d: Entries, key: string, s: string, l: nat, pos: nat)
    requires !HasKey(d, "next_string") && !HasKey(d, "pre_string")
    requires pos + l <= |s|
    ensures var r := AddrWrites(d, key, s, l, pos);
            && Lookup(r, "match_type") == Some(Str(key))
            && StrOr(r, "pre_string") == s[..pos]
            && StrOr(r, "match_string") == Slice(s[pos..], 0, l)
            && StrOr(r, "next_string") == Slice(s, pos + l, |s|)
  {
    AddrChainEntries(d, key, s[..pos], Slice(s[pos..], 0, l), Slice(s, pos + l, |s|));
  }

  lemma AddrChainEntries(d: Entries, key: string, pre: string, m: string, next: string)
    requires !HasKey(d, "next_string") && !HasKey(d, "pre_string")
    ensures var r := AddrChain(d, key, pre, m, next);
            && Lookup(r, "match_type") == Some(Str(key))
            && StrOr(r, "pre_string") == pre
            && StrOr(r, "match_string") == m
            && StrOr(r, "next_string") == next
  {
    LookupAbsent(d, "next_string");
    LookupAbsent(d, "pre_string");
    var d1 := DictSet(d, "match_type", Str(key));
    var d2 := SetIfNonEmpty(d1, "pre_string", pre);
    var d3 := SetIfNonEmpty(d2, "next_string", next);
    assert "pre_string" != "match_type" && "pre_string" != "next_string" && "pre_string" != "match_string";
    assert "next_string" != "match_type" && "next_string" != "match_string" && "match_type" != "match_string";
    assert Lookup(d1, "pre_string") == None && Lookup(d1, "next_string") == None;
    assert StrOr(d2, "pre_string") == pre && Lookup(d2, "next_string") == None;
    assert Lookup(d3, "pre_string") == Lookup(d2, "pre_string");
    assert Lookup(d3, "match_type") == Some(Str(key));
  }

  lemma {:induction false} LookupAbsent(d: Entries, k: string)
    requires !HasKey(d, k)
    ensures Lookup(d, k) == None
  {
    if d != [] {
      assert d[0].0 != k;
      assert !HasKey(d[1..], k);
      LookupAbsent(d[1..], k);
    }
  }

  // ===========================================================================
  // Format extension of a URL

  /** The six components `urllib.parse.urlparse` splits a URL into. */
  datatype ParsedUrl = ParsedUrl(scheme: string, netloc: string, path: string,
                                 params: string, query: string, fragment: string)

  /** A Python value bound by the assignment at utils.py:977. */
  datatype PyValue = PyNone | PyStr(s: string) | PyList(items: seq<string>)

  /**
   * What `k` holds after `k, v = param.split("=") if "=" in param else None, None`:
   * the conditional binds to the first tuple element only, so `k` is the whole
   * list of pieces, or None.
   */
  function QueryKey(param: string): (k: PyValue)
    ensures !k.PyStr?
  {
    if '=' in param then PyList(Split(param, '=')) else PyNone
  }

  /** The loop over the query parameters, last first: the `format=` lookup. */
  function QueryFormat(params: seq<string>): Option<string>
  {
    if params == [] then None
    else if QueryKey(Last(params)) == PyStr("format") then Some("")
    else QueryFormat(params[..|params| - 1])
  }

  /** As written, no query parameter is ever recognised as `format`. */
  lemma {:induction false} QueryFormatNeverMatches(params: seq<string>)
    ensures QueryFormat(params) == None
  {
    if params != [] {
      assert QueryKey(Last(params)) != PyStr("format");
      QueryFormatNeverMatches(params[..|params| - 1]);
    }
  }

  /** The text after the last dot of the last path segment containing a dot. */
  function PathExtension(segments: seq<string>): (r: Option<string>)
    ensures r.Some? <==> exists i :: 0 <= i < |segments| && '.' in segments[i]
    ensures r.Some? ==> '.' !in r.value
  {
    if segments == [] then None
    else if '.' in Last(segments) then Some(Last(Split(Last(segments), '.')))
    else
      var r := PathExtension(segments[..|segments| - 1]);
      assert forall i :: 0 <= i < |segments| - 1 ==> segments[..|segments| - 1][i] == segments[i];
      r
  }

  /**
   * s3_get_extension_from_url. `parse` stands for urlparse (None for the
   * ValueError/AttributeError it may raise).
   */
  function GetExtensionFromUrl(url: Option<string>, parse: string -> Option<ParsedUrl>): (ext: Option<string>)
    ensures !TruthyStr(url) ==> ext == None
    ensures ext.Some? ==> '.' !in ext.value
    ensures ext.Some? ==> parse(url.value).Some?
  {
    if !TruthyStr(url) then None
    else
      match parse(url.value)
      case None => None
      case Some(u) =>
        var q := if u.query != "" then QueryFormat(Reverse(Split(u.query, ','))) else None;
        if q.Some? && q.value != "" then
          assert false by { QueryFormatNeverMatches(Reverse(Split(u.query, ','))); }
          q
        else PathExtension(Split(u.path, '/'))
  }

  function Reverse<T>(s: seq<T>): (r: seq<T>)
    ensures |r| == |s|
  {
    if s == [] then [] else Reverse(s[1..]) + [s[0]]
  }

  /** The extension is taken from the last dotted path segment, case preserved. */
  lemma ExtensionFromLastSegment(url: string, parse: string -> Option<ParsedUrl>, dir: string, name: string, ext: string)
    requires url != "" && parse(url).Some?
    requires parse(url).value.path == dir + "/" + name + "." + ext
    requires '/' !in name && '/' !in ext && '.' !in ext
    ensures GetExtensionFromUrl(Some(url), parse) == Some(ext)
  {
    var path := dir + "/" + name + "." + ext;
    var last := name + "." + ext;
    assert path == dir + ['/'] + last;
    var segs := Split(path, '/');
    assert Last(segs) == last by { LastSplit(dir, last, '/'); }
    assert '.' in last by { assert last[|name|] == '.'; }
    assert Last(Split(last, '.')) == ext by { LastSplit(name, ext, '.'); }
    if parse(url).value.query != "" {
      QueryFormatNeverMatches(Reverse(Split(parse(url).value.query, ',')));
    }
  }

  /** The last field after a separator is everything after the last separator. */
  lemma {:induction false} LastSplit(pre: string, post: string, c: char)
    requires c !in post
    ensures |Split(pre + [c] + post, c)| >= 2
    ensures Last(Split(pre + [c] + post, c)) == post
    decreases |pre|
  {
    var s := pre + [c] + post;
    if |pre| == 0 {
      assert s == [c] + post;
      assert s[1..] == post;
      SplitNoSep(post, c);
      assert Split(s, c) == [""] + [post];
    } else {
      assert s[1..] == pre[1..] + [c] + post;
      LastSplit(pre[1..], post, c);
      var rest := Split(s[1..], c);
      if s[0] == c {
        assert Split(s, c) == [""] + rest;
      } else {
        assert Split(s, c) == [[s[0]] + rest[0]] + rest[1..];
      }
    }
  }

  // ===========================================================================
  // Setting the extension of a URL

  /** `p.split(".")[0]`: a path segment up to its first dot. */
  function CutAtDot(p: string): (r: string)
    ensures '.' !in r
  {
    var parts := Split(p, '.');
    assert '.' !in parts[0];
    parts[0]
  }

  function Cuts(ps: seq<string>): (r: seq<string>)
    ensures |r| == |ps|
    ensures forall i :: 0 <= i < |ps| ==> r[i] == CutAtDot(ps[i])
  {
    if ps == [] then [] else [CutAtDot(ps[0])] + Cuts(ps[1..])
  }

  /** The path segments, each cut at its first dot when the path has one. */
  function BaseSegments(path: string): (elements: seq<string>)
    ensures |elements| >= 1
  {
    if '.' in path then Cuts(Split(path, '/')) else Split(path, '/')
  }

  /** `if extension and elements[-1]: elements[-1] += "." + extension`. */
  function WithExtension(elements: seq<string>, e: string): (r: seq<string>)
    requires |elements| >= 1
    ensures |r| == |elements|
    ensures r[..|r| - 1] == elements[..|elements| - 1]
  {
    if e != "" && Last(elements) != "" then elements[..|elements| - 1] + [Last(elements) + "." + e]
    else elements
  }

  /**
   * s3_set_extension. `extension` None means the extension of the current
   * request, passed in as `requestExtension`; the URL is given parsed and is
   * returned in parsed form.
   */
  function SetExtension(u: ParsedUrl, extension: Option<string>, requestExtension: string): (r: ParsedUrl)
    ensures r.scheme == u.scheme && r.netloc == u.netloc && r.params == u.params
    ensures r.query == u.query && r.fragment == u.fragment
    ensures u.path == "" ==> r.path == ""
  {
    var ext := if extension.None? then requestExtension else extension.value;
    if u.path == "" then u
    else u.(path := Join(WithExtension(BaseSegments(u.path), ext), '/'))
  }

  /**
   * Every segment of the new path is the old one cut at its first dot; the
   * last one carries the extension unless the extension or that segment is empty.
   */
  lemma SetExtensionSegments(u: ParsedUrl, e: string)
    requires u.path != "" && '/' !in e
    ensures var segs := Split(SetExtension(u, Some(e), "").path, '/');
            var oldSegs := Split(u.path, '/');
            && |segs| == |oldSegs|
            && (forall i :: 0 <= i < |segs| - 1 ==> segs[i] == CutAtDot(oldSegs[i]))
            && Last(segs) == if e != "" && CutAtDot(Last(oldSegs)) != ""
                             then CutAtDot(Last(oldSegs)) + "." + e
                             else CutAtDot(Last(oldSegs))
  {
    var base := BaseSegments(u.path);
    BaseClean(u.path);
    BaseIsCuts(u.path);
    var els := WithExtension(base, e);
    ExtensionNoSlash(base, e);
    SplitJoin(els, '/');
    var oldSegs := Split(u.path, '/');
    forall i | 0 <= i < |els| - 1 ensures els[i] == CutAtDot(oldSegs[i]) {
      assert els[i] == els[..|els| - 1][i];
    }
  }

  /** Without a dot in the path, cutting at dots changes nothing. */
  lemma BaseIsCuts(path: string)
    ensures BaseSegments(path) == Cuts(Split(path, '/'))
  {
    if '.' !in path {
      var raw := Split(path, '/');
      JoinSplit(path, '/');
      forall i | 0 <= i < |raw| ensures CutAtDot(raw[i]) == raw[i] {
        SegmentChars(raw, i, '/');
        CutDotFree(raw[i]);
      }
    }
  }

  /** The base segments contain neither dots nor slashes. */
  lemma BaseClean(path: string)
    ensures forall i :: 0 <= i < |BaseSegments(path)| ==> '.' !in BaseSegments(path)[i] && '/' !in BaseSegments(path)[i]
  {
    var raw := Split(path, '/');
    JoinSplit(path, '/');
    forall i | 0 <= i < |raw| ensures '.' !in BaseSegments(path)[i] && '/' !in BaseSegments(path)[i] {
      if '.' in path {
        CutNoSlash(raw[i]);
      } else {
        SegmentChars(raw, i, '/');
      }
    }
  }

  lemma ExtensionNoSlash(base: seq<string>, e: string)
    requires |base| >= 1 && '/' !in e
    requires forall i :: 0 <= i < |base| ==> '/' !in base[i]
    ensures forall i :: 0 <= i < |WithExtension(base, e)| ==> '/' !in WithExtension(base, e)[i]
  {
    var r := WithExtension(base, e);
    forall i | 0 <= i < |r| ensures '/' !in r[i] {
      if i < |r| - 1 {
        assert r[i] == r[..|r| - 1][i] == base[i];
      } else if e != "" && Last(base) != "" {
        var last := Last(base) + "." + e;
        assert r[i] == last;
        forall k | 0 <= k < |last| ensures last[k] != '/' {
          if k < |Last(base)| {
            assert last[k] == Last(base)[k];
          } else if k > |Last(base)| {
            assert last[k] == e[k - |Last(base)| - 1];
          }
        }
      }
    }
  }

  lemma CutNoSlash(p: string)
    requires '/' !in p
    ensures '/' !in CutAtDot(p)
  {
    JoinSplit(p, '.');
    var parts := Split(p, '.');
    if |parts| > 1 {
      assert Join(parts, '.') == parts[0] + ['.'] + Join(parts[1..], '.');
    }
    assert forall k :: 0 <= k < |parts[0]| ==> parts[0][k] == p[k];
  }

  lemma CutDotFree(p: string)
    requires '.' !in p
    ensures CutAtDot(p) == p
  {
    SplitNoSep(p, '.');
  }

  lemma CutExtended(c: string, e: string)
    requires '.' !in c
    ensures CutAtDot(c + "." + e) == c
  {
    assert c + "." + e == c + ['.'] + e;
    SplitCons(c, e, '.');
  }

  /** A path rebuilt from clean segments has those segments as its base again. */
  lemma RebaseExtended(base: seq<string>, e: string)
    requires |base| >= 1 && '/' !in e
    requires forall i :: 0 <= i < |base| ==> '.' !in base[i] && '/' !in base[i]
    requires Join(WithExtension(base, e), '/') != ""
    ensures BaseSegments(Join(WithExtension(base, e), '/')) == base
  {
    var els := WithExtension(base, e);
    ExtensionNoSlash(base, e);
    SplitJoin(els, '/');
    if e != "" && Last(base) != "" {
      ExtendedHasDot(base, e);
      ExtendedCuts(base, e);
    } else {
      JoinDotFree(base, '/');
    }
  }

  /** An extended path has a dot: the one before the extension. */
  lemma ExtendedHasDot(base: seq<string>, e: string)
    requires |base| >= 1 && '/' !in e && e != "" && Last(base) != ""
    requires forall i :: 0 <= i < |base| ==> '/' !in base[i]
    ensures '.' in Join(WithExtension(base, e), '/')
  {
    var els := WithExtension(base, e);
    ExtensionNoSlash(base, e);
    assert Last(els)[|Last(base)|] == '.';
    SegmentChars(els, |els| - 1, '/');
  }

  /** Cutting the extended segments at their dots gives back the clean segments. */
  lemma ExtendedCuts(base: seq<string>, e: string)
    requires |base| >= 1 && e != "" && Last(base) != ""
    requires forall i :: 0 <= i < |base| ==> '.' !in base[i]
    ensures Cuts(WithExtension(base, e)) == base
  {
    var els := WithExtension(base, e);
    forall i | 0 <= i < |base| ensures CutAtDot(els[i]) == base[i] {
      if i < |base| - 1 {
        assert els[i] == els[..|els| - 1][i];
        CutDotFree(base[i]);
      } else {
        CutExtended(base[i], e);
      }
    }
  }

  /** For a fixed extension, setting it twice is the same as setting it once. */
  lemma SetExtensionIdempotent(u: ParsedUrl, e: string)
    requires '/' !in e
    ensures SetExtension(SetExtension(u, Some(e), ""), Some(e), "") == SetExtension(u, Some(e), "")
  {
    if u.path != "" {
      var base := BaseSegments(u.path);
      BaseClean(u.path);
      if Join(WithExtension(base, e), '/') != "" {
        RebaseExtended(base, e);
      }
    }
  }

  /** A join of dot-free fields with another separator is dot-free. */
  lemma {:induction false} JoinDotFree(parts: seq<string>, c: char)
    requires |parts| >= 1
    requires c != '.'
    requires forall i :: 0 <= i < |parts| ==> '.' !in parts[i]
    ensures '.' !in Join(parts, c)
    decreases |parts|
  {
    if |parts| > 1 {
      JoinDotFree(parts[1..], c);
      var j := Join(parts[1..], c);
      assert Join(parts, c) == parts[0] + [c] + j;
      assert '.' !in parts[0];
    }
  }

  /** Every character of a field occurs in the join. */
  lemma {:induction false} SegmentChars(parts: seq<string>, i: int, c: char)
    requires 0 <= i < |parts|
    ensures forall ch :: ch in parts[i] ==> ch in Join(parts, c)
    decreases |parts|
  {
    if |parts| > 1 {
      var j := Join(parts[1..], c);
      assert Join(parts, c) == parts[0] + [c] + j;
      if i == 0 {
        forall ch | ch in parts[0] ensures ch in Join(parts, c) {
          var k :| 0 <= k < |parts[0]| && parts[0][k] == ch;
          assert Join(parts, c)[k] == ch;
        }
      } else {
        SegmentChars(parts[1..], i - 1, c);
        forall ch | ch in parts[i] ensures ch in Join(parts, c) {
          assert ch in j;
          var k :| 0 <= k < |j| && j[k] == ch;
          assert Join(parts, c)[|parts[0]| + 1 + k] == ch;
        }
      }
    }
  }

  // ===========================================================================
  // Keys of a string template (StringTemplateParser.keys)

  /**
   * The outcome of `template % parser`: the keys looked up, the TypeError
   * that makes keys() return None, or a ValueError that propagates.
   */
  datatype KeysResult = Keys(keys: seq<string>) | NotTemplate | Raises

  predicate IsFlag(ch: char) {
    ch == '-' || ch == '+' || ch == ' ' || ch == '#' || ch == '0'
  }

  /** Conversions that accept any object (str, repr, ascii). */
  predicate IsTextConversion(ch: char) {
    ch == 's' || ch == 'r' || ch == 'a'
  }

  /** Conversions that need a number or a character: a TypeError for None. */
  predicate IsNumericConversion(ch: char) {
    ch == 'c' || ch == 'd' || ch == 'i' || ch == 'u' || ch == 'o' || ch == 'x' || ch == 'X' ||
    ch == 'e' || ch == 'E' || ch == 'f' || ch == 'F' || ch == 'g' || ch == 'G'
  }

  function SkipWhile(t: string, p: nat, digits: bool): (q: nat)
    requires p <= |t|
    ensures p <= q <= |t|
    ensures q < |t| ==> (if digits then !IsDigit(t[q]) else !IsFlag(t[q]))
    decreases |t| - p
  {
    if p < |t| && (if digits then IsDigit(t[p]) else IsFlag(t[p])) then SkipWhile(t, p + 1, digits) else p
  }

  /** The position of the `)` closing a key that starts at `p`, or -1. */
  function CloseParen(t: string, p: nat, depth: nat): (q: int)
    requires p <= |t|
    ensures q == -1 || p <= q < |t|
    decreases |t| - p
  {
    if p == |t| then -1
    else if t[p] == ')' then (if depth <= 1 then p else CloseParen(t, p + 1, depth - 1))
    else if t[p] == '(' then CloseParen(t, p + 1, depth + 1)
    else CloseParen(t, p + 1, depth)
  }

  /** Scan the template from `i`; `avail` says whether an argument is left for a positional conversion. */
  function Scan(t: string, i: nat, avail: bool, acc: seq<string>): KeysResult
    requires i <= |t|
    decreases |t| - i, 2
  {
    if i == |t| then Keys(acc)
    else if t[i] != '%' then Scan(t, i + 1, avail, acc)
    else Spec(t, i + 1, avail, acc)
  }

  /** A conversion specification after its `%`. */
  function Spec(t: string, p: nat, avail: bool, acc: seq<string>): KeysResult
    requires p <= |t|
    decreases |t| - p, 1
  {
    if p < |t| && t[p] == '%' then Scan(t, p + 1, avail, acc)
    else if p < |t| && t[p] == '(' then
      var q := CloseParen(t, p + 1, 1);
      if q < 0 then Raises
      // the mapping lookup records the key and yields None as the argument
      else Convert(t, q + 1, true, acc + [t[p + 1..q]])
    else Convert(t, p, avail, acc)
  }

  /** Flags, width, precision, length modifier and conversion character. */
  function Convert(t: string, p: nat, avail: bool, acc: seq<string>): KeysResult
    requires p <= |t|
    decreases |t| - p, 0
  {
    var p1 := SkipWhile(t, p, false);
    if p1 < |t| && t[p1] == '*' then NotTemplate
    else
      var p2 := SkipWhile(t, p1, true);
      if p2 < |t| && t[p2] == '.' && p2 + 1 < |t| && t[p2 + 1] == '*' then NotTemplate
      else
        var p3 := if p2 < |t| && t[p2] == '.' then SkipWhile(t, p2 + 1, true) else p2;
        var p4 := if p3 < |t| && (t[p3] == 'h' || t[p3] == 'l' || t[p3] == 'L') then p3 + 1 else p3;
        if p4 >= |t| then Raises
        else if !avail then NotTemplate
        else if IsTextConversion(t[p4]) then Scan(t, p4 + 1, false, acc)
        else if IsNumericConversion(t[p4]) then NotTemplate
        else Raises
  }

  /** StringTemplateParser.keys. */
  function TemplateKeys(template: string): KeysResult
  {
    Scan(template, 0, true, [])
  }

  /** A piece of a template: literal text without `%`, or a `%(name)s` key. */
  datatype Piece = Literal(s: string) | Key(name: string)

  function PieceText(p: Piece): string
  {
    match p
    case Literal(s) => s
    case Key(name) => "%(" + name + ")s"
  }

  function Render(pieces: seq<Piece>): string
  {
    if pieces == [] then "" else PieceText(pieces[0]) + Render(pieces[1..])
  }

  function KeyNames(pieces: seq<Piece>): seq<string>
  {
    if pieces == [] then []
    else if pieces[0].Key? then [pieces[0].name] + KeyNames(pieces[1..])
    else KeyNames(pieces[1..])
  }

  predicate WellFormed(pieces: seq<Piece>) {
    forall i :: 0 <= i < |pieces| ==>
      match pieces[i]
      case Literal(s) => '%' !in s
      case Key(name) => '(' !in name && ')' !in name
  }

  /** keys() returns the key names in order of appearance, repeats included. */
  lemma TemplateKeysInOrder(pieces: seq<Piece>)
    requires WellFormed(pieces)
    ensures TemplateKeys(Render(pieces)) == Keys(KeyNames(pieces))
  {
    var t := Render(pieces);
    ScanRendered(t, 0, pieces, true, [], KeyNames(pieces));
  }

  /**
   * Scanning the rendering of well-formed pieces from `i` adds their key
   * names to `acc`; `expected` names the final list.
   */
  lemma {:induction false} ScanRendered(t: string, i: nat, pieces: seq<Piece>, avail: bool, acc: seq<string>, expected: seq<string>)
    requires WellFormed(pieces)
    requires i <= |t| && t[i..] == Render(pieces)
    requires expected == acc + KeyNames(pieces)
    ensures Scan(t, i, avail, acc) == Keys(expected)
    decreases pieces, 1
  {
    if pieces == [] {
      assert |t[i..]| == 0;
    } else if pieces[0].Literal? {
      ScanLiteral(t, i, pieces, avail, acc, expected);
    } else {
      KeyPrepared(t, i, pieces, avail, acc, expected);
      ScanKey(t, i, pieces, avail, acc, expected);
    }
  }

  lemma {:induction false} ScanLiteral(t: string, i: nat, pieces: seq<Piece>, avail: bool, acc: seq<string>, expected: seq<string>)
    requires pieces != [] && pieces[0].Literal? && WellFormed(pieces)
    requires i <= |t| && t[i..] == Render(pieces)
    requires expected == acc + KeyNames(pieces)
    ensures Scan(t, i, avail, acc) == Keys(expected)
    decreases pieces, 0
  {
    WellFormedTail(pieces);
    LiteralSplit(t, i, pieces);
    SkipText(t, i, pieces[0].s, avail, acc);
    ScanRendered(t, i + |pieces[0].s|, pieces[1..], avail, acc, expected);
  }

  /** The pieces after a leading key, once the key has been scanned. */
  lemma {:induction false} ScanKey(t: string, i: nat, pieces: seq<Piece>, avail: bool, acc: seq<string>, expected: seq<string>)
    requires pieces != [] && pieces[0].Key? && WellFormed(pieces[1..])
    requires i + 4 + |pieces[0].name| <= |t| && t[i + 4 + |pieces[0].name|..] == Render(pieces[1..])
    requires expected == acc + [pieces[0].name] + KeyNames(pieces[1..])
    requires i <= |t| && Scan(t, i, avail, acc) == Scan(t, i + 4 + |pieces[0].name|, false, acc + [pieces[0].name])
    ensures Scan(t, i, avail, acc) == Keys(expected)
    decreases pieces, 0
  {
    ScanRendered(t, i + 4 + |pieces[0].name|, pieces[1..], false, acc + [pieces[0].name], expected);
  }

  /** Everything the scan of the pieces after a leading key needs. */
  lemma KeyPrepared(t: string, i: nat, pieces: seq<Piece>, avail: bool, acc: seq<string>, expected: seq<string>)
    requires pieces != [] && pieces[0].Key? && WellFormed(pieces)
    requires i <= |t| && t[i..] == Render(pieces)
    requires expected == acc + KeyNames(pieces)
    ensures WellFormed(pieces[1..])
    ensures i + 4 + |pieces[0].name| <= |t| && t[i + 4 + |pieces[0].name|..] == Render(pieces[1..])
    ensures expected == acc + [pieces[0].name] + KeyNames(pieces[1..])
    ensures Scan(t, i, avail, acc) == Scan(t, i + 4 + |pieces[0].name|, false, acc + [pieces[0].name])
  {
    KeyNamesCons(pieces, acc, expected);
    WellFormedTail(pieces);
    KeyPiece(t, i, pieces, avail, acc);
  }

  lemma KeyNamesCons(pieces: seq<Piece>, acc: seq<string>, expected: seq<string>)
    requires pieces != [] && pieces[0].Key?
    requires expected == acc + KeyNames(pieces)
    ensures expected == (acc + [pieces[0].name]) + KeyNames(pieces[1..])
  {
    assert KeyNames(pieces) == [pieces[0].name] + KeyNames(pieces[1..]);
    AppendAssoc(acc, [pieces[0].name], KeyNames(pieces[1..]));
  }

  /** A leading key piece records its name and uses up the argument. */
  lemma KeyPiece(t: string, i: nat, pieces: seq<Piece>, avail: bool, acc: seq<string>)
    requires pieces != [] && pieces[0].Key? && '(' !in pieces[0].name && ')' !in pieces[0].name
    requires i <= |t| && t[i..] == Render(pieces)
    ensures i + 4 + |pieces[0].name| <= |t| && t[i + 4 + |pieces[0].name|..] == Render(pieces[1..])
    ensures Scan(t, i, avail, acc) == Scan(t, i + 4 + |pieces[0].name|, false, acc + [pieces[0].name])
  {
    KeySplit(t, i, pieces);
    KeyStep(t, i, pieces[0].name, avail, acc);
  }

  lemma LiteralSplit(t: string, i: nat, pieces: seq<Piece>)
    requires pieces != [] && pieces[0].Literal?
    requires i <= |t| && t[i..] == Render(pieces)
    ensures i + |pieces[0].s| <= |t| && t[i..i + |pieces[0].s|] == pieces[0].s
    ensures t[i + |pieces[0].s|..] == Render(pieces[1..])
  {
    SuffixSplit(t, i, pieces[0].s, Render(pieces[1..]));
  }

  lemma KeySplit(t: string, i: nat, pieces: seq<Piece>)
    requires pieces != [] && pieces[0].Key?
    requires i <= |t| && t[i..] == Render(pieces)
    ensures i + 4 + |pieces[0].name| <= |t| && t[i..i + 4 + |pieces[0].name|] == "%(" + pieces[0].name + ")s"
    ensures t[i + 4 + |pieces[0].name|..] == Render(pieces[1..])
  {
    SuffixSplit(t, i, "%(" + pieces[0].name + ")s", Render(pieces[1..]));
  }

  lemma SuffixSplit(t: string, i: nat, a: string, b: string)
    requires i <= |t| && t[i..] == a + b
    ensures i + |a| <= |t| && t[i..i + |a|] == a && t[i + |a|..] == b
  {
    assert t[i..][..|a|] == a;
    assert t[i..][|a|..] == b;
  }

  lemma WellFormedTail(pieces: seq<Piece>)
    requires pieces != [] && WellFormed(pieces)
    ensures WellFormed(pieces[1..])
    ensures pieces[0].Literal? ==> '%' !in pieces[0].s
    ensures pieces[0].Key? ==> '(' !in pieces[0].name && ')' !in pieces[0].name
  {
    assert forall k :: 0 <= k < |pieces[1..]| ==> pieces[1..][k] == pieces[k + 1];
  }

  /** One `%(name)s` specification: records the key and uses up the argument. */
  lemma KeyStep(t: string, i: nat, name: string, avail: bool, acc: seq<string>)
    requires '(' !in name && ')' !in name
    requires i + 4 + |name| <= |t| && t[i..i + 4 + |name|] == "%(" + name + ")s"
    ensures Scan(t, i, avail, acc) == Scan(t, i + 4 + |name|, false, acc + [name])
  {
    var n := |name|;
    var key := "%(" + name + ")s";
    assert t[i] == key[0] == '%';
    assert t[i + 1] == key[1] == '(';
    assert t[i + 2 + n] == key[2 + n] == ')';
    assert t[i + 3 + n] == key[3 + n] == 's';
    assert key[2..2 + n] == name;
    assert t[i + 2..i + 2 + n] == t[i..i + 4 + n][2..2 + n];
    CloseParenPlain(t, i + 2, n);
    assert Scan(t, i, avail, acc) == Spec(t, i + 1, avail, acc);
    assert Spec(t, i + 1, avail, acc) == Convert(t, i + 3 + n, true, acc + [name]);
    assert SkipWhile(t, i + 3 + n, false) == i + 3 + n;
    assert SkipWhile(t, i + 3 + n, true) == i + 3 + n;
  }

  lemma {:induction false} SkipText(t: string, i: nat, s: string, avail: bool, acc: seq<string>)
    requires '%' !in s
    requires i + |s| <= |t| && t[i..i + |s|] == s
    ensures Scan(t, i, avail, acc) == Scan(t, i + |s|, avail, acc)
    decreases |s|
  {
    if |s| > 0 {
      assert t[i] == s[0];
      assert t[i + 1..i + 1 + |s[1..]|] == s[1..];
      SkipText(t, i + 1, s[1..], avail, acc);
    }
  }

  lemma CloseParenPlain(t: string, p: nat, n: nat)
    requires p + n < |t| && t[p + n] == ')'
    requires '(' !in t[p..p + n] && ')' !in t[p..p + n]
    ensures CloseParen(t, p, 1) == p + n
  {
    var k := n;
    while k > 0
      invariant 0 <= k <= n
      invariant CloseParen(t, p + k, 1) == p + n
    {
      k := k - 1;
      assert t[p + k] == t[p..p + n][k];
    }
  }

  /** The documented example: two keys, in order. */
  lemma TemplateKeysExample()
    ensures TemplateKeys("%(first_name)s %(last_name)s") == Keys(["first_name", "last_name"])
  {
    var pieces := [Key("first_name"), Literal(" "), Key("last_name")];
    ExampleRender();
    ExampleWellFormed(pieces);
    ExampleKeyNames(pieces);
    TemplateKeysInOrder(pieces);
  }

  lemma ExampleWellFormed(pieces: seq<Piece>)
    requires pieces == [Key("first_name"), Literal(" "), Key("last_name")]
    ensures WellFormed(pieces)
  {
    NoParens("first_name");
    NoParens("last_name");
    assert '%' !in " ";
  }

  lemma NoParens(name: string)
    requires forall i :: 0 <= i < |name| ==> 'a' <= name[i] <= 'z' || name[i] == '_'
    ensures '(' !in name && ')' !in name
  {
  }

  lemma ExampleKeyNames(pieces: seq<Piece>)
    requires pieces == [Key("first_name"), Literal(" "), Key("last_name")]
    ensures KeyNames(pieces) == ["first_name", "last_name"]
  {
    var p2 := pieces[1..];
    var p3 := p2[1..];
    assert p2[0] == Literal(" ") && p3[0] == Key("last_name");
    assert p3[1..] == [];
    assert KeyNames(p3) == ["last_name"];
    assert KeyNames(p2) == KeyNames(p3);
  }

  lemma ExampleRender()
    ensures Render([Key("first_name"), Literal(" "), Key("last_name")]) == "%(first_name)s %(last_name)s"
  {
    ExampleStructure([Key("first_name"), Literal(" "), Key("last_name")]);
    FirstNameText();
    LastNameText();
    ExampleJoin();
  }

  lemma ExampleStructure(pieces: seq<Piece>)
    requires pieces == [Key("first_name"), Literal(" "), Key("last_name")]
    ensures Render(pieces) == PieceText(Key("first_name")) + (" " + (PieceText(Key("last_name")) + ""))
  {
    var p2 := pieces[1..];
    var p3 := p2[1..];
    assert p2[0] == Literal(" ") && p3[0] == Key("last_name");
    assert p3[1..] == [];
    assert Render(p3) == PieceText(Key("last_name")) + "";
    assert Render(p2) == " " + Render(p3);
  }

  lemma FirstNameText()
    ensures PieceText(Key("first_name")) == "%(first_name)s"
  {
  }

  lemma LastNameText()
    ensures PieceText(Key("last_name")) == "%(last_name)s"
  {
  }

  lemma ExampleJoin()
    ensures "%(first_name)s" + (" " + ("%(last_name)s" + "")) == "%(first_name)s %(last_name)s"
  {
  }

  /** A numeric conversion of a key is the TypeError that makes keys() None. */
  lemma NumericKeyIsNotTemplate(name: string)
    requires '(' !in name && ')' !in name
    ensures TemplateKeys("%(" + name + ")d") == NotTemplate
  {
    var t := "%(" + name + ")d";
    var n := |name|;
    assert t[0] == '%' && t[1] == '(' && t[2 + n] == ')' && t[3 + n] == 'd';
    assert t[2..2 + n] == name;
    CloseParenPlain(t, 2, n);
    assert Scan(t, 0, true, []) == Spec(t, 1, true, []);
    assert Spec(t, 1, true, []) == Convert(t, 3 + n, true, [name]);
    assert SkipWhile(t, 3 + n, false) == 3 + n;
    assert SkipWhile(t, 3 + n, true) == 3 + n;
    assert !IsTextConversion('d') && IsNumericConversion('d');
  }

  // ===========================================================================
  // Flattening nested iterables (s3_flatlist)

  /** An item: a scalar, a string (an atom despite being iterable), or an iterable. */
  datatype Item = Scalar(v: int) | Chars(s: string) | Iterable(items: seq<Item>)

  /** s3_flatlist: the leaves, depth first, in order. */
  function Flatten(xs: seq<Item>): (leaves: seq<Item>)
    ensures forall x :: x in leaves ==> !x.Iterable?
    decreases xs
  {
    if xs == [] then []
    else
      (match xs[0]
       case Iterable(sub) => Flatten(sub)
       case _ => [xs[0]]) + Flatten(xs[1..])
  }

  lemma {:induction false} FlattenAppend(a: seq<Item>, b: seq<Item>)
    ensures Flatten(a + b) == Flatten(a) + Flatten(b)
    decreases a
  {
    if a != [] {
      assert (a + b)[0] == a[0];
      assert (a + b)[1..] == a[1..] + b;
      FlattenAppend(a[1..], b);
      var h := match a[0] case Iterable(sub) => Flatten(sub) case _ => [a[0]];
      assert Flatten(a) == h + Flatten(a[1..]);
      assert Flatten(a + b) == h + Flatten(a[1..] + b);
      AppendAssoc(h, Flatten(a[1..]), Flatten(b));
    } else {
      assert a + b == b;
    }
  }

  /** A sequence of leaves is its own flattening. */
  lemma {:induction false} FlattenLeaves(xs: seq<Item>)
    requires forall x :: x in xs ==> !x.Iterable?
    ensures Flatten(xs) == xs
    decreases xs
  {
    if xs != [] {
      assert xs[0] in xs;
      FlattenLeaves(xs[1..]);
    }
  }

  /** Flattening is idempotent. */
  lemma FlattenIdempotent(xs: seq<Item>)
    ensures Flatten(Flatten(xs)) == Flatten(xs)
  {
    FlattenLeaves(Flatten(xs));
  }

  /** Nesting a list one level deeper does not change its leaves. */
  lemma FlattenNested(xs: seq<Item>)
    ensures Flatten([Iterable(xs)]) == Flatten(xs)
  {
    assert [Iterable(xs)][1..] == [];
  }

  // ===========================================================================
  // Links in an error traceback (Traceback.make_links)

  /** The text after segment `i - 1` has been emitted, from segment `i` on. */
  function LinkedFrom(words: seq<string>, i: nat, makeLink: string -> string): string
    decreases |words| - i
  {
    if i >= |words| then ""
    else
      var link := makeLink(words[i]);
      if link == "" then "\"" + words[i] + LinkedFrom(words, i + 1, makeLink)
      else if i + 1 < |words| then link + words[i + 1] + LinkedFrom(words, i + 2, makeLink)
      else link
  }

  /**
   * Traceback.make_links: split at double quotes; a quoted path for which
   * `makeLink` gives a link is replaced by it (together with its quotes),
   * everything else is copied back.
   */
  method MakeLinks(traceback: string, makeLink: string -> string) returns (result: string)
    ensures result == Split(traceback, '"')[0] + LinkedFrom(Split(traceback, '"'), 1, makeLink)
  {
    var lwords := Split(traceback, '"');
    result := if |lwords| > 0 then lwords[0] else "";
    var i := 1;
    while i < |lwords|
      invariant 1 <= i
      invariant result + LinkedFrom(lwords, i, makeLink) == lwords[0] + LinkedFrom(lwords, 1, makeLink)
      decreases |lwords| - i
    {
      var link := makeLink(lwords[i]);
      if link == "" {
        QuoteStep(result, lwords, i, makeLink, lwords[0] + LinkedFrom(lwords, 1, makeLink));
        result := result + "\"" + lwords[i];
      } else if i + 1 < |lwords| {
        LinkStep(result, lwords, i, makeLink, lwords[0] + LinkedFrom(lwords, 1, makeLink));
        result := result + link + lwords[i + 1];
        i := i + 1;
      } else {
        LastLinkStep(result, lwords, i, makeLink, lwords[0] + LinkedFrom(lwords, 1, makeLink));
        result := result + link;
      }
      i := i + 1;
    }
  }

  /** A segment without a link is copied back after its opening quote. */
  lemma QuoteStep(r: string, words: seq<string>, i: nat, makeLink: string -> string, target: string)
    requires i < |words| && makeLink(words[i]) == ""
    requires r + LinkedFrom(words, i, makeLink) == target
    ensures r + "\"" + words[i] + LinkedFrom(words, i + 1, makeLink) == target
  {
    Regroup(r, "\"", words[i], LinkedFrom(words, i + 1, makeLink));
  }

  /** A linked segment is replaced by its link, and the segment after it is copied back. */
  lemma LinkStep(r: string, words: seq<string>, i: nat, makeLink: string -> string, target: string)
    requires i + 1 < |words| && makeLink(words[i]) != ""
    requires r + LinkedFrom(words, i, makeLink) == target
    ensures r + makeLink(words[i]) + words[i + 1] + LinkedFrom(words, i + 2, makeLink) == target
  {
    Regroup(r, makeLink(words[i]), words[i + 1], LinkedFrom(words, i + 2, makeLink));
  }

  /** A linked last segment is replaced by its link. */
  lemma LastLinkStep(r: string, words: seq<string>, i: nat, makeLink: string -> string, target: string)
    requires i + 1 == |words| && makeLink(words[i]) != ""
    requires r + LinkedFrom(words, i, makeLink) == target
    ensures r + makeLink(words[i]) + LinkedFrom(words, i + 1, makeLink) == target
  {
    assert LinkedFrom(words, i + 1, makeLink) == "";
    assert r + makeLink(words[i]) + "" == r + makeLink(words[i]);
  }

  lemma Regroup(r: string, a: string, b: string, rest: string)
    ensures r + a + b + rest == r + (a + b + rest)
  {
    AppendAssoc(r, a, b);
    AppendAssoc(r, a + b, rest);
  }

  /** The quoted segments, each with its opening quote, from segment `i` on. */
  function Requoted(words: seq<string>, i: nat): string
    decreases |words| - i
  {
    if i >= |words| then "" else "\"" + words[i] + Requoted(words, i + 1)
  }

  lemma {:induction false} NoLinksRequote(words: seq<string>, i: nat, makeLink: string -> string)
    requires forall w :: makeLink(w) == ""
    ensures LinkedFrom(words, i, makeLink) == Requoted(words, i)
    decreases |words| - i
  {
    if i < |words| {
      NoLinksRequote(words, i + 1, makeLink);
    }
  }

  lemma {:induction false} JoinRequoted(words: seq<string>)
    requires |words| >= 1
    ensures Join(words, '"') == words[0] + Requoted(words, 1)
    decreases |words|
  {
    if |words| > 1 {
      JoinRequoted(words[1..]);
      RequotedShift(words, 1);
      assert Join(words, '"') == words[0] + ['"'] + Join(words[1..], '"');
    }
  }

  lemma {:induction false} RequotedShift(words: seq<string>, i: nat)
    requires 1 <= i <= |words|
    ensures Requoted(words[1..], i - 1) == Requoted(words, i)
    decreases |words| - i
  {
    if i < |words| {
      RequotedShift(words, i + 1);
    }
  }

  /** Without any link, splitting at quotes and re-joining gives back the text. */
  lemma MakeLinksIdentity(traceback: string, makeLink: string -> string)
    requires forall w :: makeLink(w) == ""
    ensures Split(traceback, '"')[0] + LinkedFrom(Split(traceback, '"'), 1, makeLink) == traceback
  {
    var words := Split(traceback, '"');
    NoLinksRequote(words, 1, makeLink);
    JoinRequoted(words);
    JoinSplit(traceback, '"');
  }
}
