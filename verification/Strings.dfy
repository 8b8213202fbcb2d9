/** `strtok`, a tokenizer that writes into its string and remembers where it was, and `strcmp`. */
module Strings {
  const NUL: char := '\0'

  /** Text as C has it: no character is the terminator. */
  type CString = s: string | '\0' !in s

  /** The string that starts at a place in a buffer. */
  function TextAt(b: seq<char>, i: nat): string
    decreases |b| - i
  {
    if i >= |b| || b[i] == NUL then "" else [b[i]] + TextAt(b, i + 1)
  }

  ghost predicate Terminated(b: seq<char>, i: nat) {
    exists z :: i <= z < |b| && b[z] == NUL
  }

  // ----- What tokens are -----

  /** Cut at every delimiter; some fields may be empty. */
  function Fields(s: string, d: string): (r: seq<string>)
    ensures |r| > 0
  {
    if s == "" then [""]
    else
      var rest := Fields(s[1..], d);
      if s[0] in d then [""] + rest else [[s[0]] + rest[0]] + rest[1..]
  }

  function NonEmpty(fields: seq<string>): seq<string> {
    if fields == [] then [] else (if fields[0] == "" then [] else [fields[0]]) + NonEmpty(fields[1..])
  }

  /** The maximal delimiter-free pieces of a string, in order. */
  function Tokens(s: string, d: string): seq<string> {
    NonEmpty(Fields(s, d))
  }

  // ----- Where one call finds them -----

  /** The first place from `i` on that is the end or not a delimiter. */
  function SkipFrom(b: seq<char>, i: nat, d: string): (r: nat)
    ensures r >= i
    decreases |b| - i
  {
    if i < |b| && b[i] != NUL && b[i] in d then SkipFrom(b, i + 1, d) else i
  }

  /** The first place from `i` on that is the end or a delimiter. */
  function SpanFrom(b: seq<char>, i: nat, d: string): (r: nat)
    ensures r >= i
    decreases |b| - i
  {
    if i < |b| && b[i] != NUL && b[i] !in d then SpanFrom(b, i + 1, d) else i
  }

  lemma {:induction false} SkipEnds(b: seq<char>, i: nat, d: string)
    requires Terminated(b, i)
    ensures Terminated(b, SkipFrom(b, i, d)) && SkipFrom(b, i, d) < |b|
    ensures b[SkipFrom(b, i, d)] != NUL ==> b[SkipFrom(b, i, d)] !in d
    decreases |b| - i
  {
    if b[i] != NUL && b[i] in d { SkipEnds(b, i + 1, d); }
  }

  lemma {:induction false} SpanEnds(b: seq<char>, i: nat, d: string)
    requires Terminated(b, i)
    ensures var e := SpanFrom(b, i, d);
      && Terminated(b, e) && e < |b| && (b[e] == NUL || b[e] in d)
      && (forall j :: i <= j < e ==> b[j] != NUL && b[j] !in d)
    decreases |b| - i
  {
    if b[i] != NUL && b[i] !in d { SpanEnds(b, i + 1, d); }
  }

  lemma {:induction false} SkipTokens(b: seq<char>, i: nat, d: string)
    requires NUL !in d
    ensures Tokens(TextAt(b, i), d) == Tokens(TextAt(b, SkipFrom(b, i, d)), d)
    decreases |b| - i
  {
    if i < |b| && b[i] != NUL && b[i] in d {
      SkipTokens(b, i + 1, d);
      var rest := TextAt(b, i + 1);
      assert ([b[i]] + rest)[1..] == rest;
      assert ([""] + Fields(rest, d))[1..] == Fields(rest, d);
    }
  }

  /** The first field runs to the delimiter, and the other fields are those after it. */
  lemma {:induction false} SpanFields(b: seq<char>, i: nat, d: string)
    requires Terminated(b, i)
    ensures var e := SpanFrom(b, i, d);
      Fields(TextAt(b, i), d) ==
        [b[i..if e < |b| then e else |b|]] + if e < |b| && b[e] != NUL then Fields(TextAt(b, e + 1), d) else []
    decreases |b| - i
  {
    SpanEnds(b, i, d);
    if b[i] != NUL {
      var rest := TextAt(b, i + 1);
      assert ([b[i]] + rest)[1..] == rest;
      if b[i] !in d {
        var e := SpanFrom(b, i, d);
        SpanFields(b, i + 1, d);
        assert b[i..e] == [b[i]] + b[i + 1..e];
        assert Fields(TextAt(b, i), d) == [[b[i]] + Fields(rest, d)[0]] + Fields(rest, d)[1..];
      }
    } else {
      assert b[i..i] == "";
    }
  }

  /** One call takes the first token, and leaves the tokens after it. */
  lemma TakesFirst(b: seq<char>, i: nat, d: string)
    requires Terminated(b, i) && NUL !in d
    ensures var st := SkipFrom(b, i, d);
      var e := SpanFrom(b, st, d);
      && st <= e < |b| && (b[st] != NUL ==> st < e)
      && Tokens(TextAt(b, i), d) ==
           if b[st] == NUL then []
           else [b[st..e]] + if b[e] == NUL then [] else Tokens(TextAt(b, e + 1), d)
  {
    hide *;
    var st := SkipFrom(b, i, d);
    SkipEnds(b, i, d);
    SkipTokens(b, i, d);
    SpanEnds(b, st, d);
    if b[st] == NUL {
      NoTokens(b, st, d);
    } else {
      SpanTokens(b, st, d);
    }
  }

  lemma NoTokens(b: seq<char>, st: nat, d: string)
    requires st < |b| && b[st] == NUL
    ensures Tokens(TextAt(b, st), d) == []
  {
    assert Fields("", d) == [""] && [""][1..] == [];
  }

  lemma SpanTokens(b: seq<char>, st: nat, d: string)
    requires Terminated(b, st) && st < SpanFrom(b, st, d) < |b|
    ensures var e := SpanFrom(b, st, d);
      Tokens(TextAt(b, st), d) == [b[st..e]] + if b[e] == NUL then [] else Tokens(TextAt(b, e + 1), d)
  {
    hide TextAt, SpanFrom, Fields, Terminated;
    SpanFields(b, st, d);
    var e := SpanFrom(b, st, d);
    var more := if b[e] != NUL then Fields(TextAt(b, e + 1), d) else [];
    assert Fields(TextAt(b, st), d) == [b[st..e]] + more;
    FirstCounts(b[st..e], more);
  }

  lemma FirstCounts(field: string, more: seq<string>)
    requires field != ""
    ensures NonEmpty([field] + more) == [field] + NonEmpty(more)
  {
    assert ([field] + more)[1..] == more;
  }

  lemma {:induction false} TextCut(b: seq<char>, st: nat, e: nat)
    requires st <= e < |b| && b[e] == NUL && forall j :: st <= j < e ==> b[j] != NUL
    ensures TextAt(b, st) == b[st..e]
    decreases e - st
  {
    if st < e {
      TextCut(b, st + 1, e);
      assert b[st..e] == [b[st]] + b[st + 1..e];
    }
  }

  // ----- What tokens mean -----

  predicate Free(s: string, d: string) {
    forall j :: 0 <= j < |s| ==> s[j] !in d
  }

  /** The delimiters of a string, in order. */
  function Delimiters(s: string, d: string): string {
    if s == "" then "" else (if s[0] in d then [s[0]] else "") + Delimiters(s[1..], d)
  }

  /** Fields with a character between each and the next. */
  function Weave(fields: seq<string>, between: string): string
    requires |fields| == |between| + 1
    decreases |fields|
  {
    if between == "" then fields[0] else fields[0] + [between[0]] + Weave(fields[1..], between[1..])
  }

  /** The fields with the delimiters put back between them are the string, and no field holds a
      delimiter: so each field is a whole stretch between delimiters. */
  lemma {:induction false} FieldsAreStretches(s: string, d: string)
    ensures |Fields(s, d)| == |Delimiters(s, d)| + 1
    ensures Weave(Fields(s, d), Delimiters(s, d)) == s
    ensures forall k :: 0 <= k < |Fields(s, d)| ==> Free(Fields(s, d)[k], d)
    ensures forall k :: 0 <= k < |Delimiters(s, d)| ==> Delimiters(s, d)[k] in d
  {
    if s != "" {
      FieldsAreStretches(s[1..], d);
      var f, x := Fields(s[1..], d), Delimiters(s[1..], d);
      assert s == [s[0]] + s[1..];
      if s[0] in d {
        assert ([""] + f)[1..] == f && ([s[0]] + x)[1..] == x;
      } else {
        assert ([[s[0]] + f[0]] + f[1..])[1..] == f[1..];
        assert "" + x == x;
      }
    }
  }

  /** Every token is a field and not empty. */
  lemma {:induction false} TokensMean(fields: seq<string>)
    ensures forall x :: x in NonEmpty(fields) <==> x in fields && x != ""
  {
    if fields != [] {
      TokensMean(fields[1..]);
      assert fields == [fields[0]] + fields[1..];
    }
  }

  /** And they come in the order of the fields, each once for every field. */
  lemma {:induction false} TokensInOrder(x: seq<string>, y: seq<string>)
    ensures NonEmpty(x + y) == NonEmpty(x) + NonEmpty(y)
  {
    if x == [] {
      assert x + y == y;
    } else {
      assert (x + y)[1..] == x[1..] + y;
      TokensInOrder(x[1..], y);
    }
  }

  // ----- The tokenizer -----

  class Tokenizer {
    /** The static pointer: a string and a place in it; null for NULL. */
    var text: array?<char>
    var at: nat

    ghost predicate Valid()
      reads this, text
    {
      text != null ==> Terminated(text[..], at)
    }

    constructor ()
      ensures Valid() && text == null
    {
      text, at := null, 0;
    }

    /** The result is the token's place in the string, or -1 for NULL. */
    method Strtok(s1: array?<char>, s2: string) returns (token: int)
      requires if s1 != null then Terminated(s1[..], 0) else Valid()
      requires NUL !in s2
      modifies this, if s1 != null then s1 else text
      ensures Valid()
      ensures s1 == null && old(text) == null ==> token == -1 && text == null
      ensures s1 != null || old(text) != null ==>
        var s := if s1 != null then s1 else old(text);
        var b := if s1 != null then old(s1[..]) else old(text[..]);
        var st := SkipFrom(b, if s1 != null then 0 else old(at), s2);
        var e := SpanFrom(b, st, s2);
        && st <= e < s.Length
        && if b[st] == NUL then token == -1 && text == null && s[..] == b
           else token == st < e && s[..] == b[e := NUL]
                && if b[e] == NUL then text == null else text == s && at == e + 1
    {
      hide SkipFrom, SpanFrom, Terminated;
      if s1 != null {
        text, at := s1, 0;
      } else if text == null {
        return -1;
      }
      var s := text;
      ghost var b := s[..];
      SkipEnds(b, at, s2);
      SpanEnds(b, SkipFrom(b, at, s2), s2);
      var i := SkipDelimiters(s, at, s2);
      if s[i] == NUL {
        text := null;
        return -1;
      }
      at := i;
      while s[at] != NUL
        invariant i <= at <= SpanFrom(b, i, s2) && text == s && s[..] == b && SpanFrom(b, at, s2) == SpanFrom(b, i, s2)
        decreases |b| - at
      {
        SpanStep(b, at, s2);
        var found := Matches(s[at], s2);
        if found {
          CutKeeps(b, at);
          s[at] := NUL;
          at := at + 1;
          return i;
        }
        at := at + 1;
      }
      text := null;
      return i;
    }
  }

  /** The loop over leading delimiters, which starts on the set again after each match. */
  method SkipDelimiters(s: array<char>, start: nat, s2: string) returns (i: nat)
    requires Terminated(s[..], start)
    ensures i == SkipFrom(s[..], start, s2) < s.Length
  {
    i := start;
    var p := 0;
    while p < |s2| && s[i] != NUL
      invariant start <= i < s.Length && 0 <= p <= |s2|
      invariant Terminated(s[..], i) && SkipFrom(s[..], i, s2) == SkipFrom(s[..], start, s2)
      invariant forall q :: 0 <= q < p ==> s2[q] != s[i]
      decreases s.Length - i, |s2| - p
    {
      if s[i] == s2[p] {
        i := i + 1;
        p := 0;
      } else {
        p := p + 1;
      }
    }
  }

  /** The inner loop: is a character one of the delimiters? */
  method Matches(c: char, s2: string) returns (found: bool)
    ensures found <==> c in s2
  {
    var p := 0;
    while p < |s2|
      invariant 0 <= p <= |s2| && forall q :: 0 <= q < p ==> s2[q] != c
    {
      if c == s2[p] { return true; }
      p := p + 1;
    }
    return false;
  }

  lemma SpanStep(b: seq<char>, at: nat, d: string)
    requires at < |b| && b[at] != NUL
    ensures SpanFrom(b, at, d) == if b[at] in d then at else SpanFrom(b, at + 1, d)
  {
  }

  /** After the delimiter is overwritten the string still ends. */
  lemma CutKeeps(b: seq<char>, at: nat)
    requires at < |b| && Terminated(b, at) && b[at] != NUL
    ensures Terminated(b[at := NUL], at + 1)
  {
    var z :| at <= z < |b| && b[z] == NUL;
    assert b[at := NUL][z] == NUL;
  }

  // ----- A whole run -----

  /** Tokens found so far can still be read where they start, and lie before a place. */
  ghost predicate Readable(b: seq<char>, starts: seq<int>, tokens: seq<string>, limit: nat) {
    && |starts| == |tokens|
    && forall k :: 0 <= k < |starts| ==>
         0 <= starts[k] && starts[k] + |tokens[k]| < limit <= |b| && TextAt(b, starts[k]) == tokens[k]
  }

  /** Only delimiters right after tokens have been overwritten. */
  ghost predicate OnlyCuts(was: seq<char>, b: seq<char>, starts: seq<int>, tokens: seq<string>, d: string) {
    && |b| == |was| && |starts| == |tokens|
    && forall j :: 0 <= j < |b| && b[j] != was[j] ==>
         b[j] == NUL && was[j] in d && exists k :: 0 <= k < |starts| && starts[k] + |tokens[k]| == j
  }

  lemma {:induction false} TextUnharmed(b: seq<char>, i: nat, e: nat)
    requires i + |TextAt(b, i)| < e < |b|
    ensures TextAt(b[e := NUL], i) == TextAt(b, i)
    decreases |b| - i
  {
    if b[i] != NUL { TextUnharmed(b, i + 1, e); }
  }

  /** One more token. */
  lemma OneMore(was: seq<char>, b: seq<char>, starts: seq<int>, tokens: seq<string>, d: string,
                limit: nat, st: nat, e: nat)
    requires Readable(b, starts, tokens, limit) && OnlyCuts(was, b, starts, tokens, d)
    requires limit <= st < e < |b| && (b[e] != NUL ==> b[e] in d && b[e] == was[e])
    requires forall j :: st <= j < e ==> b[j] != NUL
    ensures var b' := b[e := NUL];
      && Readable(b', starts + [st], tokens + [b[st..e]], e + 1)
      && OnlyCuts(was, b', starts + [st], tokens + [b[st..e]], d)
  {
    var b' := b[e := NUL];
    var starts', tokens' := starts + [st], tokens + [b[st..e]];
    assert b'[st..e] == b[st..e];
    TextCut(b', st, e);
    forall k | 0 <= k < |starts'|
      ensures 0 <= starts'[k] && starts'[k] + |tokens'[k]| < e + 1 <= |b'| && TextAt(b', starts'[k]) == tokens'[k]
    {
      if k < |starts| { TextUnharmed(b, starts[k], e); }
    }
    forall j | 0 <= j < |b'| && b'[j] != was[j]
      ensures b'[j] == NUL && was[j] in d && exists k :: 0 <= k < |starts'| && starts'[k] + |tokens'[k]| == j
    {
      if j == e {
        assert starts'[|starts|] + |tokens'[|starts|]| == j;
      } else {
        var k :| 0 <= k < |starts| && starts[k] + |tokens[k]| == j;
        assert starts'[k] + |tokens'[k]| == j;
      }
    }
  }

  lemma {:induction false} SameText(b: seq<char>, b': seq<char>, i: nat)
    requires |b| == |b'| && forall j :: i <= j < |b| ==> b[j] == b'[j]
    ensures TextAt(b, i) == TextAt(b', i)
    decreases |b| - i
  {
    if i < |b| { SameText(b, b', i + 1); }
  }

  /** Where a run of calls stands: `pos` is the static pointer, or -1 for NULL. */
  ghost predicate Progress(was: seq<char>, b: seq<char>, starts: seq<int>, tokens: seq<string>, d: string,
                           all: seq<string>, pos: int) {
    && -1 <= pos <= |b| && Readable(b, starts, tokens, if pos < 0 then |b| else pos)
    && OnlyCuts(was, b, starts, tokens, d)
    && all == tokens + (if pos < 0 then [] else Tokens(TextAt(b, pos), d))
    && (pos >= 0 ==> Terminated(b, pos) && forall j :: pos <= j < |b| ==> b[j] == was[j])
  }

  lemma Started(b: seq<char>, d: string)
    requires Terminated(b, 0)
    ensures Progress(b, b, [], [], d, Tokens(TextAt(b, 0), d), 0)
  {
  }

  /** One call moves a run on by one token, or ends it. */
  lemma CallMoves(was: seq<char>, b: seq<char>, starts: seq<int>, tokens: seq<string>, d: string,
                  all: seq<string>, pos: nat)
    requires Progress(was, b, starts, tokens, d, all, pos) && NUL !in d
    ensures var st := SkipFrom(b, pos, d);
      var e := SpanFrom(b, st, d);
      && pos <= st <= e < |b|
      && if b[st] == NUL then Progress(was, b, starts, tokens, d, all, -1)
         else Progress(was, b[e := NUL], starts + [st], tokens + [b[st..e]], d, all, if b[e] == NUL then -1 else e + 1)
  {
    hide Readable, OnlyCuts, TextAt, Tokens, Terminated, SkipFrom, SpanFrom;
    var st := SkipFrom(b, pos, d);
    var e := SpanFrom(b, st, d);
    TakesFirst(b, pos, d);
    SkipEnds(b, pos, d);
    SpanEnds(b, st, d);
    if b[st] == NUL {
      ReadableToEnd(b, starts, tokens, pos);
    } else {
      OneMore(was, b, starts, tokens, d, pos, st, e);
      Shift(tokens, b[st..e], if b[e] == NUL then [] else Tokens(TextAt(b, e + 1), d));
      if b[e] == NUL {
        ReadableToEnd(b[e := NUL], starts + [st], tokens + [b[st..e]], e + 1);
      } else {
        CutKeeps(b, e);
        SameText(b, b[e := NUL], e + 1);
      }
    }
  }

  lemma Shift(tokens: seq<string>, x: string, rest: seq<string>)
    ensures tokens + ([x] + rest) == tokens + [x] + rest
  {
  }

  lemma ReadableToEnd(b: seq<char>, starts: seq<int>, tokens: seq<string>, limit: nat)
    requires Readable(b, starts, tokens, limit) && limit <= |b|
    ensures Readable(b, starts, tokens, |b|)
  {
  }

  /** Calling until NULL gives exactly the tokens of the original string, each still readable in
      place at the end, with one delimiter overwritten after each and nothing else. */
  method AllTokens(s: array<char>, d: string) returns (starts: seq<int>, ghost tokens: seq<string>)
    requires Terminated(s[..], 0) && NUL !in d
    modifies s
    ensures tokens == Tokens(old(TextAt(s[..], 0)), d)
    ensures Readable(s[..], starts, tokens, s.Length) && OnlyCuts(old(s[..]), s[..], starts, tokens, d)
  {
    hide Tokens, TextAt, Terminated, Readable, OnlyCuts, Progress;
    var t := new Tokenizer();
    starts, tokens := [], [];
    ghost var was, all := s[..], Tokens(TextAt(s[..], 0), d);
    Started(was, d);
    CallMoves(was, was, [], [], d, all, 0);
    ghost var found := was[SkipFrom(was, 0, d)..SpanFrom(was, SkipFrom(was, 0, d), d)];
    var token := t.Strtok(s, d);
    while token != -1
      invariant t.Valid() && (t.text == null || (t.text == s && t.at <= s.Length))
      invariant if token == -1 then t.text == null && Progress(was, s[..], starts, tokens, d, all, -1)
        else Progress(was, s[..], starts + [token], tokens + [found], d, all, if t.text == null then -1 else t.at)
      decreases (if token == -1 then 0 else 1) + if t.text == null then 0 else s.Length - t.at + 1
    {
      starts, tokens := starts + [token], tokens + [found];
      ghost var b, pos := s[..], if t.text == null then -1 else t.at;
      if pos >= 0 {
        CallMoves(was, b, starts, tokens, d, all, pos);
        found := b[SkipFrom(b, pos, d)..SpanFrom(b, SkipFrom(b, pos, d), d)];
      }
      token := t.Strtok(null, d);
    }
    Finished(was, s[..], starts, tokens, d, all);
  }

  lemma Finished(was: seq<char>, b: seq<char>, starts: seq<int>, tokens: seq<string>, d: string, all: seq<string>)
    requires Progress(was, b, starts, tokens, d, all, -1)
    ensures tokens == all && Readable(b, starts, tokens, |b|) && OnlyCuts(was, b, starts, tokens, d)
  {
  }

  // ----- strcmp -----

  /** A text stored with its terminator is that text. */
  lemma TerminatedText(s: string)
    requires NUL !in s
    ensures Terminated(s + [NUL], 0) && TextAt(s + [NUL], 0) == s
  {
    assert (s + [NUL])[|s|] == NUL;
    TextCut(s + [NUL], 0, |s|);
    assert (s + [NUL])[0..|s|] == s;
  }

  /** The character of a string at a place, the terminator included. */
  function CodeAt(s: string, k: nat): int {
    if k < |s| then s[k] as int else 0
  }

  lemma {:induction false} TextStep(b: seq<char>, i: nat, k: nat)
    requires Terminated(b, i) && i + k < |b| && k <= |TextAt(b, i)|
    ensures CodeAt(TextAt(b, i), k) == b[i + k] as int
    ensures k < |TextAt(b, i)| <==> b[i + k] != NUL
    decreases k
  {
    if k > 0 { TextStep(b, i + 1, k - 1); }
  }

  lemma {:induction false} TextFits(b: seq<char>, i: nat)
    requires Terminated(b, i)
    ensures i + |TextAt(b, i)| < |b| && forall k :: 0 <= k < |TextAt(b, i)| ==> TextAt(b, i)[k] != NUL
    decreases |b| - i
  {
    if b[i] != NUL { TextFits(b, i + 1); }
  }

  /** Zero exactly for equal strings, as the lookup of processes by name needs; else the
      difference at the first place where they differ. */
  method Strcmp(s1: seq<char>, s2: seq<char>) returns (diff: int)
    requires Terminated(s1, 0) && Terminated(s2, 0)
    ensures var x, y := TextAt(s1, 0), TextAt(s2, 0);
      && (diff == 0 <==> x == y)
      && (diff != 0 ==>
           exists k :: 0 <= k <= |x| && k <= |y| && x[..k] == y[..k] && diff == CodeAt(x, k) - CodeAt(y, k))
  {
    hide TextAt, Terminated;
    ghost var x, y := TextAt(s1, 0), TextAt(s2, 0);
    TextFits(s1, 0);
    TextFits(s2, 0);
    var k := 0;
    TextStep(s1, 0, 0);
    TextStep(s2, 0, 0);
    while s1[k] != NUL && s1[k] == s2[k]
      invariant 0 <= k <= |x| && k <= |y| && x[..k] == y[..k]
      invariant CodeAt(x, k) == s1[k] as int && CodeAt(y, k) == s2[k] as int
      invariant (k < |x| <==> s1[k] != NUL) && (k < |y| <==> s2[k] != NUL)
      decreases |x| - k
    {
      k := k + 1;
      TextStep(s1, 0, k);
      TextStep(s2, 0, k);
    }
    diff := s1[k] as int - s2[k] as int;
  }
}
