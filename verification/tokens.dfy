/** `query.split()`: Python's argument-less str.split, which cuts a string at
    runs of Unicode whitespace and drops empty pieces, together with the
    `" ".join` it inverts on lists of words. */
module Tokens {

  /** The characters for which Python's str.isspace holds. */
  predicate IsSpace(c: char) {
    var n := c as int;
    || (0x09 <= n <= 0x0D)
    || (0x1C <= n <= 0x20)
    || n == 0x85
    || n == 0xA0
    || n == 0x1680
    || (0x2000 <= n <= 0x200A)
    || n == 0x2028
    || n == 0x2029
    || n == 0x202F
    || n == 0x205F
    || n == 0x3000
  }

  /** A piece `split()` can produce: non-empty and free of whitespace. */
  predicate IsWord(w: string) {
    |w| > 0 && forall i :: 0 <= i < |w| ==> !IsSpace(w[i])
  }

  /** `s` without its leading whitespace. */
  function SkipSpaces(s: string): (r: string)
    ensures |r| <= |s| && r == s[|s| - |r|..]
    ensures forall i :: 0 <= i < |s| - |r| ==> IsSpace(s[i])
    ensures |r| > 0 ==> !IsSpace(r[0])
  {
    if |s| > 0 && IsSpace(s[0]) then SkipSpaces(s[1..]) else s
  }

  /** The longest whitespace-free prefix of `s`. */
  function Word(s: string): (w: string)
    ensures |w| <= |s| && w == s[..|w|]
    ensures forall i :: 0 <= i < |w| ==> !IsSpace(w[i])
    ensures |w| < |s| ==> IsSpace(s[|w|])
  {
    if |s| > 0 && !IsSpace(s[0]) then [s[0]] + Word(s[1..]) else []
  }

  /** `s.split()`: the maximal whitespace-free runs of `s`, in order. */
  function Split(s: string): (ws: seq<string>)
    ensures forall k :: 0 <= k < |ws| ==> IsWord(ws[k])
    decreases |s|
  {
    var rest := SkipSpaces(s);
    if |rest| == 0 then []
    else
      var w := Word(rest);
      [w] + Split(rest[|w|..])
  }

  /** `" ".join(ws)`. */
  function Join(ws: seq<string>): string {
    if |ws| == 0 then ""
    else if |ws| == 1 then ws[0]
    else ws[0] + " " + Join(ws[1..])
  }

  /** The concatenation of a list of strings. */
  function Concat(ws: seq<string>): string {
    if |ws| == 0 then "" else ws[0] + Concat(ws[1..])
  }

  /** The non-whitespace characters of `s`, in order. */
  function NonSpace(s: string): string {
    if |s| == 0 then "" else (if IsSpace(s[0]) then "" else [s[0]]) + NonSpace(s[1..])
  }

  lemma {:induction false} NonSpaceAppend(a: string, b: string)
    ensures NonSpace(a + b) == NonSpace(a) + NonSpace(b)
  {
    if |a| > 0 {
      assert (a + b)[1..] == a[1..] + b;
      NonSpaceAppend(a[1..], b);
    } else {
      assert a + b == b;
    }
  }

  lemma {:induction false} NonSpaceOfSpaces(s: string)
    requires forall i :: 0 <= i < |s| ==> IsSpace(s[i])
    ensures NonSpace(s) == ""
  {
    if |s| > 0 {
      NonSpaceOfSpaces(s[1..]);
    }
  }

  lemma {:induction false} NonSpaceOfWord(w: string)
    requires forall i :: 0 <= i < |w| ==> !IsSpace(w[i])
    ensures NonSpace(w) == w
  {
    if |w| > 0 {
      NonSpaceOfWord(w[1..]);
      assert w == [w[0]] + w[1..];
    }
  }

  /** Splitting loses exactly the whitespace: the words, concatenated, are
      the non-whitespace characters of the input in their original order. */
  lemma {:induction false} SplitKeepsContent(s: string)
    ensures Concat(Split(s)) == NonSpace(s)
    decreases |s|
  {
    var rest := SkipSpaces(s);
    var skipped := s[..|s| - |rest|];
    SpacesThenRest(s);
    if |rest| > 0 {
      var w := Word(rest);
      var tail := rest[|w|..];
      WordThenRest(rest);
      SplitKeepsContent(tail);
      calc {
        Concat(Split(s));
        { SplitStep(s); }
        w + Concat(Split(tail));
        w + NonSpace(tail);
        NonSpace(rest);
        NonSpace(s);
      }
    }
  }

  /** The non-whitespace of `s` lies after its leading whitespace. */
  lemma SpacesThenRest(s: string)
    ensures NonSpace(s) == NonSpace(SkipSpaces(s))
  {
    var rest := SkipSpaces(s);
    var skipped := s[..|s| - |rest|];
    assert s == skipped + rest;
    NonSpaceAppend(skipped, rest);
    NonSpaceOfSpaces(skipped);
  }

  /** The non-whitespace of `s` starts with its first word. */
  lemma WordThenRest(s: string)
    ensures NonSpace(s) == Word(s) + NonSpace(s[|Word(s)|..])
  {
    var w := Word(s);
    var tail := s[|w|..];
    assert s == w + tail;
    NonSpaceAppend(w, tail);
    NonSpaceOfWord(w);
  }

  /** One step of the split, and of the concatenation of its result. */
  lemma SplitStep(s: string)
    requires |SkipSpaces(s)| > 0
    ensures var rest := SkipSpaces(s); var w := Word(rest);
      Concat(Split(s)) == w + Concat(Split(rest[|w|..]))
  {
    var rest := SkipSpaces(s);
    var w := Word(rest);
    assert Split(s) == [w] + Split(rest[|w|..]);
    assert ([w] + Split(rest[|w|..]))[1..] == Split(rest[|w|..]);
  }

  /** A word followed by whitespace or nothing is read back whole. */
  lemma {:induction false} WordOfWord(w: string, rest: string)
    requires forall i :: 0 <= i < |w| ==> !IsSpace(w[i])
    requires |rest| == 0 || IsSpace(rest[0])
    ensures Word(w + rest) == w
  {
    if |w| > 0 {
      assert (w + rest)[1..] == w[1..] + rest;
      WordOfWord(w[1..], rest);
      assert w == [w[0]] + w[1..];
    } else {
      assert w + rest == rest;
    }
  }

  /** A leading whitespace character does not change the split. */
  lemma SplitLeadingSpace(c: char, s: string)
    requires IsSpace(c)
    ensures Split([c] + s) == Split(s)
  {
    assert ([c] + s)[1..] == s;
  }

  /** A word followed by whitespace or nothing is split off first. */
  lemma SplitWordThen(w: string, rest: string)
    requires IsWord(w)
    requires |rest| == 0 || IsSpace(rest[0])
    ensures Split(w + rest) == [w] + Split(rest)
  {
    var s := w + rest;
    assert SkipSpaces(s) == s;
    WordOfWord(w, rest);
    assert s[|w|..] == rest;
  }

  /** Joining two or more words puts one space after the first. */
  lemma JoinCons(ws: seq<string>)
    requires |ws| > 1
    ensures Join(ws) == ws[0] + ([' '] + Join(ws[1..]))
  {
  }

  /** The inductive step: a first word in front of words that round-trip. */
  lemma SplitJoinCons(ws: seq<string>)
    requires |ws| > 1 && IsWord(ws[0])
    requires Split(Join(ws[1..])) == ws[1..]
    ensures Split(Join(ws)) == ws
  {
    var tail := Join(ws[1..]);
    calc {
      Split(Join(ws));
      { JoinCons(ws); }
      Split(ws[0] + ([' '] + tail));
      { SplitWordThen(ws[0], [' '] + tail); }
      [ws[0]] + Split([' '] + tail);
      { SplitLeadingSpace(' ', tail); }
      [ws[0]] + ws[1..];
      ws;
    }
  }

  /** Splitting the space-joined words gives the words back. */
  lemma {:induction false} SplitJoin(ws: seq<string>)
    requires forall k :: 0 <= k < |ws| ==> IsWord(ws[k])
    ensures Split(Join(ws)) == ws
  {
    if |ws| == 1 {
      SplitWordThen(ws[0], "");
      assert ws[0] + "" == ws[0];
    } else if |ws| > 1 {
      SplitJoin(ws[1..]);
      SplitJoinCons(ws);
    }
  }

  /** A text of whitespace only splits into no tokens. */
  lemma {:induction false} SplitBlank(text: string)
    requires forall i :: 0 <= i < |text| ==> IsSpace(text[i])
    ensures Split(text) == []
  {
    assert |SkipSpaces(text)| == 0;
  }
}
