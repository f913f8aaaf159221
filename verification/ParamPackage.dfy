/** The string container: an escaping printer, and the parser that undoes it. */
module ParamPackages {
  import opened Strings

  const EMPTY_PLACEHOLDER := "[empty]"

  // ---------- replacing, character by character ----------

  /** Every `c` replaced. */
  function Subst(s: string, c: char, d: string): string {
    if s == "" then "" else (if s[0] == c then d else [s[0]]) + Subst(s[1..], c, d)
  }

  lemma ReplacedMatch(s: string, src: string, dest: string)
    requires src != "" && MatchesAt(s, src, 0)
    ensures Replaced(s, src, dest) == dest + Replaced(s[|src|..], src, dest)
  {
  }

  lemma ReplacedSkip(c: char, rest: string, src: string, dest: string)
    requires src != "" && !MatchesAt([c] + rest, src, 0)
    ensures Replaced([c] + rest, src, dest) == [c] + Replaced(rest, src, dest)
  {
    assert ([c] + rest)[1..] == rest;
  }

  /** Replacing a character is replacing each of them. */
  lemma {:induction false} ReplaceChar(s: string, c: char, d: string)
    ensures Replaced(s, [c], d) == Subst(s, c, d)
  {
    if s != "" {
      ReplaceChar(s[1..], c, d);
      assert MatchesAt(s, [c], 0) <==> s[0] == c;
      assert s == [s[0]] + s[1..];
      if s[0] == c { ReplacedMatch(s, [c], d); } else { ReplacedSkip(s[0], s[1..], [c], d); }
    }
  }

  /** No `a` stands right before a `b`. */
  predicate NoPair(s: string, a: char, b: char) {
    s == "" || (!(s[0] == a && |s| > 1 && s[1] == b) && NoPair(s[1..], a, b))
  }

  /** Replacing `c` by the pair and the pair by `c` again changes nothing, unless the pair was
      there before. */
  lemma {:induction false} ReplaceBack(s: string, c: char, a: char, b: char)
    requires a != b && (c == a || NoPair(s, a, b))
    ensures Replaced(Subst(s, c, [a, b]), [a, b], [c]) == s
  {
    if s != "" {
      var t := Subst(s, c, [a, b]);
      ReplaceBack(s[1..], c, a, b);
      PairAtFront(t, a, b);
      if s[0] == c {
        assert t[..2] == [a, b] && t[2..] == Subst(s[1..], c, [a, b]);
        ReplacedMatch(t, [a, b], [c]);
      } else {
        assert t[1..] == Subst(s[1..], c, [a, b]);
        if |s| > 1 { assert t[1] == if s[1] == c then a else s[1]; }
        assert t == [t[0]] + t[1..];
        ReplacedSkip(t[0], t[1..], [a, b], [c]);
      }
    }
  }

  lemma PairAtFront(t: string, a: char, b: char)
    ensures MatchesAt(t, [a, b], 0) <==> |t| > 1 && t[0] == a && t[1] == b
  {
    if |t| > 1 { assert t[0..2] == [t[0], t[1]]; }
  }

  /** Every `$` is followed by one of `marks`. */
  predicate Marked(s: string, marks: set<char>) {
    s == "" || ((s[0] == '$' ==> |s| > 1 && s[1] in marks) && Marked(s[1..], marks))
  }

  lemma {:induction false} MarkedNoPair(s: string, marks: set<char>, b: char)
    requires Marked(s, marks) && b !in marks
    ensures NoPair(s, '$', b)
  {
    if s != "" { MarkedNoPair(s[1..], marks, b); }
  }

  lemma {:induction false} DollarsMarked(s: string)
    ensures Marked(Subst(s, '$', "$2"), {'2'})
  {
    if s != "" {
      DollarsMarked(s[1..]);
      var t := Subst(s, '$', "$2");
      if s[0] == '$' {
        assert t[1..] == "2" + Subst(s[1..], '$', "$2");
        assert t[1..][1..] == Subst(s[1..], '$', "$2");
      } else {
        assert t[1..] == Subst(s[1..], '$', "$2");
      }
    }
  }

  lemma {:induction false} SubstMarked(s: string, marks: set<char>, c: char, b: char)
    requires Marked(s, marks) && c !in marks && c != '$' && b != '$'
    ensures Marked(Subst(s, c, ['$', b]), marks + {b})
  {
    if s != "" {
      SubstMarked(s[1..], marks, c, b);
      var t, rest := Subst(s, c, ['$', b]), Subst(s[1..], c, ['$', b]);
      if s[0] == c {
        assert t[1..] == [b] + rest && t[1..][1..] == rest;
      } else {
        assert t[1..] == rest;
        if s[0] == '$' { assert rest[0] == s[1]; }
      }
    }
  }

  lemma {:induction false} SubstLacks(s: string, c: char, d: string, x: char)
    requires x !in d && (x == c || x !in s)
    ensures x !in Subst(s, c, d)
  {
    if s != "" { SubstLacks(s[1..], c, d, x); }
  }

  // ---------- escaping ----------

  function Escape(s: string): string {
    Subst(Subst(Subst(s, '$', "$2"), ',', "$1"), ':', "$0")
  }

  function Unescape(s: string): string {
    Replaced(Replaced(Replaced(s, "$0", ":"), "$1", ","), "$2", "$")
  }

  /** Three passes undo three passes, for every string. */
  lemma UnescapeEscape(s: string)
    ensures Unescape(Escape(s)) == s
  {
    var s1 := Subst(s, '$', "$2");
    var s2 := Subst(s1, ',', "$1");
    DollarsMarked(s);
    SubstMarked(s1, {'2'}, ',', '1');
    MarkedNoPair(s1, {'2'}, '1');
    MarkedNoPair(s2, {'2'} + {'1'}, '0');
    ReplaceBack(s2, ':', '$', '0');
    ReplaceBack(s1, ',', '$', '1');
    ReplaceBack(s, '$', '$', '2');
  }

  lemma EscapeLacksSeparators(s: string)
    ensures ',' !in Escape(s) && ':' !in Escape(s)
    ensures Escape(s) == "" <==> s == ""
  {
    var s1 := Subst(s, '$', "$2");
    var s2 := Subst(s1, ',', "$1");
    SubstLacks(s1, ',', "$1", ',');
    SubstLacks(s2, ':', "$0", ',');
    SubstLacks(s2, ':', "$0", ':');
  }

  // ---------- printing and parsing ----------

  function Entry(key: string, value: string): string { Escape(key) + ":" + Escape(value) }

  function Entries(m: map<string, string>, order: seq<string>): (r: seq<string>)
    requires forall k :: k in order ==> k in m
    ensures |r| == |order| && forall i :: 0 <= i < |order| ==> r[i] == Entry(order[i], m[order[i]])
  {
    seq(|order|, i requires 0 <= i < |order| => Entry(order[i], m[order[i]]))
  }

  /** Every entry with its separator behind it. */
  function Trail(entries: seq<string>): string {
    if entries == [] then "" else entries[0] + "," + Trail(entries[1..])
  }

  /** The map's keys in the order of its iteration. The source iterates in sorted order. */
  ghost predicate IsOrder(m: map<string, string>, order: seq<string>) {
    && (forall k :: k in order <==> k in m)
    && forall i, j :: 0 <= i < j < |order| ==> order[i] != order[j]
  }

  /** `pop_back`. */
  function Untrail(s: string): string { if s == "" then "" else s[..|s| - 1] }

  function Text(m: map<string, string>, order: seq<string>): string
    requires forall k :: k in order ==> k in m
  {
    if order == [] then EMPTY_PLACEHOLDER else Untrail(Trail(Entries(m, order)))
  }

  function AddPair(m: map<string, string>, pair: string): map<string, string> {
    var kv := Fields(pair, ':');
    if |kv| != 2 then m else m[Unescape(kv[0]) := Unescape(kv[1])]
  }

  function AddPairs(pairs: seq<string>): map<string, string> {
    if pairs == [] then map[] else AddPair(AddPairs(pairs[..|pairs| - 1]), pairs[|pairs| - 1])
  }

  function Parse(s: string): map<string, string> {
    if s == EMPTY_PLACEHOLDER then map[] else AddPairs(Fields(s, ','))
  }

  lemma {:induction false} FieldsClosed(s: string, delim: char)
    requires s != "" && s[|s| - 1] != delim
    ensures Fields(s + [delim], delim) == Fields(s, delim)
    decreases |s|
  {
    var i := FirstOf(s, delim);
    FirstOfIsFirst(s, delim);
    if i == |s| {
      FieldsCons(s, delim, "");
      assert s + [delim] + "" == s + [delim];
    } else {
      var a, b := s[..i], s[i + 1..];
      assert s == a + [delim] + b;
      assert b != "" && b[|b| - 1] == s[|s| - 1];
      assert s + [delim] == a + [delim] + (b + [delim]);
      FieldsCons(a, delim, b + [delim]);
      FieldsCons(a, delim, b);
      FieldsClosed(b, delim);
    }
  }

  lemma {:induction false} FieldsOfTrail(entries: seq<string>)
    requires forall i :: 0 <= i < |entries| ==> ',' !in entries[i]
    ensures Fields(Trail(entries), ',') == entries
  {
    if entries != [] {
      FieldsOfTrail(entries[1..]);
      FieldsCons(entries[0], ',', Trail(entries[1..]));
      assert Trail(entries) == entries[0] + [','] + Trail(entries[1..]);
    }
  }

  lemma {:induction false} TrailAppend(entries: seq<string>, e: string)
    ensures Trail(entries + [e]) == Trail(entries) + (e + ",")
  {
    if entries == [] {
      assert entries + [e] == [e] && Trail([e][1..]) == "";
      assert Trail([e]) == e + "," + "";
    } else {
      TrailAppend(entries[1..], e);
      assert (entries + [e])[1..] == entries[1..] + [e];
      assert Trail(entries + [e]) == entries[0] + "," + (Trail(entries[1..]) + (e + ","));
    }
  }

  lemma TrailNext(entries: seq<string>, i: nat)
    requires i < |entries|
    ensures Trail(entries[..i + 1]) == Trail(entries[..i]) + (entries[i] + ",")
  {
    TrailAppend(entries[..i], entries[i]);
    assert entries[..i + 1] == entries[..i] + [entries[i]];
  }

  /** Splitting the entries without the last separator gives them back. */
  lemma FieldsOfText(front: seq<string>, last: string)
    requires forall i :: 0 <= i < |front| ==> ',' !in front[i]
    requires ',' !in last && last != ""
    ensures var trail := Trail(front + [last]);
            && trail != "" && Untrail(trail) == Trail(front) + last && Fields(Untrail(trail), ',') == front + [last]
  {
    TrailAppend(front, last);
    var text := Trail(front) + last;
    assert text + [','] == Trail(front) + (last + ",");
    FieldsOfTrail(front + [last]);
    FieldsClosed(text, ',');
    assert Untrail(Trail(front + [last])) == text;
  }

  /** An entry is read back, unless its value is empty: the split then drops the empty field. */
  lemma EntryParses(m: map<string, string>, key: string, value: string)
    ensures AddPair(m, Entry(key, value)) == if value == "" then m else m[key := value]
    ensures Entry(key, value) != "" && ',' !in Entry(key, value) && ':' in Entry(key, value)
  {
    EscapeLacksSeparators(key);
    EscapeLacksSeparators(value);
    UnescapeEscape(key);
    UnescapeEscape(value);
    FieldsCons(Escape(key), ':', Escape(value));
    FieldsSingle(Escape(value), ':');
    assert Entry(key, value)[|Escape(key)|] == ':';
  }

  /** The entries whose value is not empty. */
  function NonEmpty(m: map<string, string>): map<string, string> {
    map k | k in m && m[k] != "" :: m[k]
  }

  /** The entries with a key in `order` and a value that is not empty. */
  function Kept(m: map<string, string>, order: seq<string>): map<string, string>
    requires forall k :: k in order ==> k in m
  {
    if order == [] then map[]
    else
      var last := order[|order| - 1];
      var kept := Kept(m, order[..|order| - 1]);
      if m[last] == "" then kept else kept[last := m[last]]
  }

  lemma {:induction false} KeptHas(m: map<string, string>, order: seq<string>, k: string)
    requires forall x :: x in order ==> x in m
    ensures k in Kept(m, order) <==> k in order && m[k] != ""
    ensures k in Kept(m, order) ==> Kept(m, order)[k] == m[k]
  {
    if order != [] {
      KeptHas(m, order[..|order| - 1], k);
      assert order == order[..|order| - 1] + [order[|order| - 1]];
    }
  }

  lemma {:induction false} EntriesParse(m: map<string, string>, order: seq<string>)
    requires forall k :: k in order ==> k in m
    ensures AddPairs(Entries(m, order)) == Kept(m, order)
  {
    if order != [] {
      var n := |order| - 1;
      EntriesParse(m, order[..n]);
      assert Entries(m, order)[..n] == Entries(m, order[..n]);
      EntryParses(AddPairs(Entries(m, order[..n])), order[n], m[order[n]]);
    }
  }

  predicate IsEntry(e: string) { e != "" && ',' !in e && ':' in e }

  ghost predicate AreEntries(entries: seq<string>) { forall i :: 0 <= i < |entries| ==> IsEntry(entries[i]) }

  lemma TextOfEntries(entries: seq<string>)
    requires entries != [] && AreEntries(entries)
    ensures Trail(entries) != "" && Fields(Untrail(Trail(entries)), ',') == entries && ':' in Untrail(Trail(entries))
  {
    var n := |entries| - 1;
    var front, last := entries[..n], entries[n];
    assert entries == front + [last];
    assert IsEntry(last) && forall i :: 0 <= i < |front| ==> IsEntry(front[i]);
    FieldsOfText(front, last);
    InTail(Trail(front), last, ':');
  }

  lemma InTail(front: string, last: string, c: char)
    requires c in last
    ensures c in front + last
  {
    var i: nat :| i < |last| && last[i] == c;
    assert (front + last)[|front| + i] == c;
  }

  /** The text of a map that is not empty splits into its entries, and is not the placeholder. */
  lemma TextFields(m: map<string, string>, order: seq<string>)
    requires order != [] && forall k :: k in order ==> k in m
    ensures Fields(Text(m, order), ',') == Entries(m, order)
    ensures ':' in Text(m, order)
  {
    AllEntries(m, order);
    TextOfEntries(Entries(m, order));
  }

  lemma PlaceholderLacksColon()
    ensures ':' !in EMPTY_PLACEHOLDER
  {
  }

  lemma AllEntries(m: map<string, string>, order: seq<string>)
    requires forall k :: k in order ==> k in m
    ensures AreEntries(Entries(m, order))
  {
    forall i | 0 <= i < |order| ensures IsEntry(Entries(m, order)[i]) {
      EntryParses(map[], order[i], m[order[i]]);
    }
  }

  /** Parsing what was printed gives exactly the entries with non-empty values, for every map,
      every order and every content. */
  lemma ParseText(m: map<string, string>, order: seq<string>)
    requires IsOrder(m, order)
    ensures Parse(Text(m, order)) == NonEmpty(m)
  {
    if order == [] {
      assert m.Keys == {};
    } else {
      TextFields(m, order);
      PlaceholderLacksColon();
      EntriesParse(m, order);
      KeptIsNonEmpty(m, order);
    }
  }

  lemma KeptIsNonEmpty(m: map<string, string>, order: seq<string>)
    requires IsOrder(m, order)
    ensures Kept(m, order) == NonEmpty(m)
  {
    forall k ensures k in Kept(m, order) <==> k in NonEmpty(m)
             ensures k in Kept(m, order) ==> Kept(m, order)[k] == NonEmpty(m)[k]
    {
      KeptHas(m, order, k);
    }
  }

  /** A package stored as a value of another comes back, whatever it holds. */
  lemma NestedPackageSurvives(inner: map<string, string>, innerOrder: seq<string>, m: map<string, string>,
                              order: seq<string>, key: string)
    requires IsOrder(inner, innerOrder) && IsOrder(m, order)
    requires key in m && m[key] == Text(inner, innerOrder)
    ensures key in Parse(Text(m, order)) && Parse(Parse(Text(m, order))[key]) == NonEmpty(inner)
  {
    ParseText(m, order);
    ParseText(inner, innerOrder);
    if innerOrder != [] { TextFields(inner, innerOrder); }
  }

  class ParamPackage {
    var data: map<string, string>

    /** The parsing constructor. */
    constructor Parsed(serialized: string)
      ensures data == Parse(serialized)
    {
      data := map[];
      new;
      if serialized != EMPTY_PLACEHOLDER {
        var pairs := SplitString(serialized, ',');
        for i := 0 to |pairs|
          invariant data == AddPairs(pairs[..i])
        {
          assert pairs[..i + 1][..i] == pairs[..i];
          AddParsed(pairs[i]);
        }
        assert pairs[..|pairs|] == pairs;
      }
    }

    method AddParsed(pair: string)
      modifies this
      ensures data == AddPair(old(data), pair)
    {
      var keyValue := SplitString(pair, ':');
      if |keyValue| != 2 {
        return;
      }
      var key := Unescaped(keyValue[0]);
      var value := Unescaped(keyValue[1]);
      Set(key, value);
    }

    method Set(key: string, value: string)
      modifies this
      ensures data == old(data)[key := value]
    {
      data := data[key := value];
    }

    /** `Serialize`, given the order in which the map is walked. */
    method Serialize(order: seq<string>) returns (result: string)
      requires IsOrder(data, order)
      ensures result == Text(data, order)
    {
      if order == [] {
        return EMPTY_PLACEHOLDER;
      }
      result := "";
      ghost var entries := Entries(data, order);
      for i := 0 to |order|
        invariant result == Trail(entries[..i])
      {
        var key := Escaped(order[i]);
        var value := Escaped(data[order[i]]);
        TrailNext(entries, i);
        result := result + (key + ":" + value + ",");
      }
      assert entries[..|order|] == entries;
      result := Untrail(result);
    }
  }

  method Escaped(part: string) returns (r: string)
    ensures r == Escape(part)
  {
    ReplaceChar(part, '$', "$2");
    ReplaceChar(Subst(part, '$', "$2"), ',', "$1");
    ReplaceChar(Subst(Subst(part, '$', "$2"), ',', "$1"), ':', "$0");
    r := ReplaceAll(part, "$", "$2");
    r := ReplaceAll(r, ",", "$1");
    r := ReplaceAll(r, ":", "$0");
  }

  method Unescaped(part: string) returns (r: string)
    ensures r == Unescape(part)
  {
    r := ReplaceAll(part, "$0", ":");
    r := ReplaceAll(r, "$1", ",");
    r := ReplaceAll(r, "$2", "$");
  }
}
