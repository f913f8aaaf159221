/** Splitting and replacing in strings: the loops, and what they compute. */
module Strings {

  // ---------- SplitString ----------

  /** The index of the first `c`, or the length. */
  function FirstOf(s: string, c: char): (i: nat)
    ensures i <= |s|
  {
    if s == "" || s[0] == c then 0 else 1 + FirstOf(s[1..], c)
  }

  lemma {:induction false} FirstOfIsFirst(s: string, c: char)
    ensures c !in s[..FirstOf(s, c)] && (FirstOf(s, c) < |s| ==> s[FirstOf(s, c)] == c)
  {
    if s != "" && s[0] != c {
      FirstOfIsFirst(s[1..], c);
      assert s[..FirstOf(s, c)] == [s[0]] + s[1..][..FirstOf(s[1..], c)];
    }
  }

  /** The fields between delimiters; an empty field at the end is dropped. */
  function Fields(s: string, delim: char): seq<string> {
    if s == "" then []
    else
      var i := FirstOf(s, delim);
      if i == |s| then [s] else [s[..i]] + Fields(s[i + 1..], delim)
  }

  lemma LastField(s: string, delim: char)
    requires s != "" && FirstOf(s, delim) == |s|
    ensures Fields(s, delim) == [s]
  {
  }

  lemma FirstField(s: string, delim: char, i: nat)
    requires i == FirstOf(s, delim) < |s|
    ensures Fields(s, delim) == [s[..i]] + Fields(s[i + 1..], delim)
  {
  }

  lemma NextField(output: seq<string>, field: string, rest: seq<string>, fields: seq<string>)
    requires fields == [field] + rest
    ensures output + fields == (output + [field]) + rest
  {
    Assoc(output, [field], rest);
  }

  lemma Assoc(a: seq<string>, b: seq<string>, c: seq<string>)
    ensures a + (b + c) == (a + b) + c
  {
  }

  /** The loop reads a line at a time; a read that finds no characters left fails. */
  method SplitString(s: string, delim: char) returns (output: seq<string>)
    ensures output == Fields(s, delim)
  {
    output := [];
    var rest := s;
    assert [] + Fields(s, delim) == Fields(s, delim);
    while rest != ""
      invariant output + Fields(rest, delim) == Fields(s, delim)
      decreases |rest|
    {
      var i := FirstOf(rest, delim);
      if i == |rest| {
        LastField(rest, delim);
        return output + [rest];
      }
      FirstField(rest, delim, i);
      NextField(output, rest[..i], Fields(rest[i + 1..], delim), Fields(rest, delim));
      output := output + [rest[..i]];
      rest := rest[i + 1..];
    }
    assert output + [] == output;
  }

  lemma FirstOfConcat(a: string, c: char, b: string)
    requires c !in a
    ensures FirstOf(a + [c] + b, c) == |a|
    decreases |a|
  {
    var s := a + [c] + b;
    if a != "" {
      assert s[1..] == a[1..] + [c] + b;
      FirstOfConcat(a[1..], c, b);
    }
  }

  /** A field, its delimiter, and the rest. */
  lemma FieldsCons(a: string, delim: char, b: string)
    requires delim !in a
    ensures Fields(a + [delim] + b, delim) == [a] + Fields(b, delim)
  {
    FirstOfConcat(a, delim, b);
    var s := a + [delim] + b;
    assert s[..|a|] == a && s[|a| + 1..] == b;
  }

  lemma FieldsSingle(a: string, delim: char)
    requires delim !in a
    ensures Fields(a, delim) == if a == "" then [] else [a]
  {
    FirstOfIsFirst(a, delim);
  }

  // ---------- ReplaceAll ----------

  predicate MatchesAt(s: string, src: string, i: nat) { i + |src| <= |s| && s[i..i + |src|] == src }

  /** `find`: the first match at `from` or later; `None` is `npos`. */
  datatype Found = None | At(index: nat)

  function Find(s: string, src: string, from: nat): (r: Found)
    ensures r.At? ==> from <= r.index && r.index + |src| <= |s|
    decreases |s| + 1 - from
  {
    if from + |src| > |s| then None
    else if MatchesAt(s, src, from) then At(from)
    else Find(s, src, from + 1)
  }

  /** It is the first match, and with no match there is none. */
  lemma {:induction false} FindIsFirst(s: string, src: string, from: nat, i: nat)
    requires from <= i
    ensures var r := Find(s, src, from);
            && (r.At? ==> MatchesAt(s, src, r.index))
            && (r.None? || i < r.index ==> !MatchesAt(s, src, i))
    decreases |s| + 1 - from
  {
    if from + |src| <= |s| && !MatchesAt(s, src, from) {
      FindIsFirst(s, src, from + 1, if i == from then i + 1 else i);
    }
  }

  /** All matches from left to right, not overlapping, replaced. */
  function Replaced(s: string, src: string, dest: string): string
    requires src != ""
    decreases |s|
  {
    if s == "" then ""
    else if MatchesAt(s, src, 0) then dest + Replaced(s[|src|..], src, dest)
    else [s[0]] + Replaced(s[1..], src, dest)
  }

  /** `replace(f, n, dest)`. */
  function Spliced(s: string, f: nat, n: nat, dest: string): (r: string)
    requires f + n <= |s|
    ensures |r| == |s| - n + |dest|
  {
    s[..f] + dest + s[f + n..]
  }

  /** What `ReplaceAll` ends with when it has come to `pos`. */
  function Outcome(s: string, pos: nat, src: string, dest: string): string
    requires src != "" && pos <= |s|
  {
    s[..pos] + Replaced(s[pos..], src, dest)
  }

  lemma Regroup(a: string, b: string, x: string)
    ensures a + (b + x) == (a + b) + x
  {
  }

  lemma TailAt(s: string, pos: nat, n: nat)
    requires pos + n <= |s|
    ensures s[pos..][n..] == s[pos + n..]
  {
  }

  lemma HeadAt(s: string, pos: nat)
    requires pos < |s|
    ensures s[..pos] + [s[pos..][0]] == s[..pos + 1]
  {
  }

  lemma MatchAtTail(s: string, src: string, pos: nat)
    requires pos <= |s|
    ensures MatchesAt(s[pos..], src, 0) <==> MatchesAt(s, src, pos)
  {
    if pos + |src| <= |s| { assert s[pos..][0..|src|] == s[pos..pos + |src|]; }
  }

  /** Where nothing matches, the search may go on one further. */
  lemma OutcomeSkip(s: string, pos: nat, src: string, dest: string)
    requires src != "" && pos < |s| && !MatchesAt(s, src, pos)
    ensures Outcome(s, pos, src, dest) == Outcome(s, pos + 1, src, dest)
  {
    MatchAtTail(s, src, pos);
    TailAt(s, pos, 1);
    HeadAt(s, pos);
    Regroup(s[..pos], [s[pos..][0]], Replaced(s[pos + 1..], src, dest));
  }

  lemma OutcomeMatch(s: string, pos: nat, src: string, dest: string)
    requires src != "" && MatchesAt(s, src, pos)
    ensures Outcome(s, pos, src, dest) == (s[..pos] + dest) + Replaced(s[pos + |src|..], src, dest)
  {
    MatchAtTail(s, src, pos);
    TailAt(s, pos, |src|);
    Regroup(s[..pos], dest, Replaced(s[pos + |src|..], src, dest));
  }

  /** Where the match at `f` was replaced: what is done, and what is left to search. */
  lemma CutSpliced(s: string, f: nat, n: nat, dest: string)
    requires f + n <= |s|
    ensures Spliced(s, f, n, dest)[..f + |dest|] == s[..f] + dest
    ensures Spliced(s, f, n, dest)[f + |dest|..] == s[f + n..]
  {
  }

  lemma OutcomeSpliced(s: string, f: nat, src: string, dest: string)
    requires src != "" && MatchesAt(s, src, f)
    ensures Outcome(Spliced(s, f, |src|, dest), f + |dest|, src, dest) == Outcome(s, f, src, dest)
  {
    CutSpliced(s, f, |src|, dest);
    OutcomeMatch(s, f, src, dest);
  }

  /** Searching on from `pos` changes nothing before the match, or up to the end. */
  lemma {:induction false} OutcomeAtMatch(s: string, pos: nat, src: string, dest: string)
    requires src != "" && pos <= |s|
    ensures var f := Find(s, src, pos);
            Outcome(s, pos, src, dest) == if f.At? then Outcome(s, f.index, src, dest) else s
    decreases |s| - pos
  {
    if pos == |s| {
      assert s[..pos] + "" == s;
    } else if !MatchesAt(s, src, pos) {
      OutcomeSkip(s, pos, src, dest);
      OutcomeAtMatch(s, pos + 1, src, dest);
      FindNext(s, src, pos);
    }
  }

  lemma FindNext(s: string, src: string, pos: nat)
    requires src != "" && !MatchesAt(s, src, pos)
    ensures Find(s, src, pos) == Find(s, src, pos + 1)
  {
  }

  /** One pass of the loop of `ReplaceAll` does not change the outcome. */
  lemma ReplacePass(s: string, pos: nat, src: string, dest: string, f: nat)
    requires src != "" && pos <= |s| && Find(s, src, pos) == At(f)
    ensures pos <= f && f + |src| <= |s|
    ensures Outcome(Spliced(s, f, |src|, dest), f + |dest|, src, dest) == Outcome(s, pos, src, dest)
  {
    FindIsFirst(s, src, pos, f);
    OutcomeAtMatch(s, pos, src, dest);
    OutcomeSpliced(s, f, src, dest);
  }

  lemma ReplaceStart(s: string, src: string, dest: string)
    requires src != ""
    ensures Outcome(s, 0, src, dest) == Replaced(s, src, dest)
  {
    assert s[0..] == s;
  }

  /** `ReplaceAll` ends unless the source is empty and the replacement is not. */
  method ReplaceAll(s: string, src: string, dest: string) returns (result: string)
    requires src != "" || dest == ""
    ensures result == if src == dest then s else Replaced(s, src, dest)
  {
    result := s;
    if src == dest {
      return;
    }
    var pos: nat := 0;
    ReplaceStart(s, src, dest);
    var f := Find(result, src, pos);
    while f.At?
      invariant pos <= |result| && f == Find(result, src, pos)
      invariant Outcome(result, pos, src, dest) == Replaced(s, src, dest)
      decreases |result| - pos
    {
      ReplacePass(result, pos, src, dest, f.index);
      result := Spliced(result, f.index, |src|, dest);
      pos := f.index + |dest|;
      f := Find(result, src, pos);
    }
    OutcomeAtMatch(result, pos, src, dest);
  }

  /** With an empty source and a replacement the loop of `ReplaceAll` finds a match again after
      every pass, further on in a longer string. */
  lemma EmptySourceNeverEnds(result: string, pos: nat, dest: string)
    requires pos <= |result| && dest != ""
    ensures Find(result, "", pos) == At(pos)
    ensures var next := result[..pos] + dest + result[pos..];
            pos + |dest| <= |next| && Find(next, "", pos + |dest|) == At(pos + |dest|)
  {
  }
}
