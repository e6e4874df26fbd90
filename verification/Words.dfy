/** Splitting an ASCII text at runs of whitespace, as str.split() does, and stripping it at both ends. */
module Words {

  predicate IsSpace(c: char) {
    c == ' ' || 9 <= c as int <= 13 || 28 <= c as int <= 31
  }

  predicate AllSpaces(s: string) {
    forall i :: 0 <= i < |s| ==> IsSpace(s[i])
  }

  predicate IsWord(s: string) {
    s != [] && forall i :: 0 <= i < |s| ==> !IsSpace(s[i])
  }

  function SkipSpaces(s: string): (r: string)
    ensures |r| <= |s|
    ensures r != [] ==> !IsSpace(r[0])
  {
    if s != [] && IsSpace(s[0]) then SkipSpaces(s[1..]) else s
  }

  function DropTrailing(s: string): string {
    if s != [] && IsSpace(s[|s| - 1]) then DropTrailing(s[..|s| - 1]) else s
  }

  function Strip(s: string): string {
    DropTrailing(SkipSpaces(s))
  }

  function WordLength(s: string): (n: nat)
    ensures n <= |s|
    ensures s != [] && !IsSpace(s[0]) ==> n > 0
    ensures forall i :: 0 <= i < n ==> !IsSpace(s[i])
    ensures n < |s| ==> IsSpace(s[n])
  {
    if s == [] || IsSpace(s[0]) then 0 else WordLength(s[1..]) + 1
  }

  function Split(s: string): seq<string>
    decreases |s|
  {
    var t := SkipSpaces(s);
    if t == [] then [] else
      var n := WordLength(t);
      [t[..n]] + Split(t[n..])
  }

  // ---------- texts laid out from words and gaps

  /** The words, each followed by its gap. */
  function Laid(words: seq<string>, gaps: seq<string>): string
    requires |gaps| == |words|
  {
    if words == [] then "" else words[0] + gaps[0] + Laid(words[1..], gaps[1..])
  }

  /** Words of non-space characters; gaps of whitespace, empty at most after the last word. */
  predicate Layout(words: seq<string>, gaps: seq<string>) {
    && |gaps| == |words|
    && (forall i :: 0 <= i < |words| ==> IsWord(words[i]) && AllSpaces(gaps[i]))
    && (forall i :: 0 <= i < |words| - 1 ==> gaps[i] != [])
  }

  lemma {:induction false} SkipLeading(lead: string, rest: string)
    requires AllSpaces(lead)
    ensures SkipSpaces(lead + rest) == SkipSpaces(rest)
  {
    if lead == [] {
      assert lead + rest == rest;
    } else {
      assert (lead + rest)[1..] == lead[1..] + rest;
      SkipLeading(lead[1..], rest);
    }
  }

  lemma SplitLeading(lead: string, rest: string)
    requires AllSpaces(lead)
    ensures Split(lead + rest) == Split(rest)
  {
    SkipLeading(lead, rest);
  }

  lemma {:induction false} WordRun(word: string, rest: string)
    requires (forall i :: 0 <= i < |word| ==> !IsSpace(word[i])) && (rest == [] || IsSpace(rest[0]))
    ensures WordLength(word + rest) == |word|
  {
    if word == [] {
      assert word + rest == rest;
    } else {
      assert (word + rest)[1..] == word[1..] + rest;
      WordRun(word[1..], rest);
    }
  }

  lemma SplitFirstWord(word: string, rest: string)
    requires IsWord(word) && (rest == [] || IsSpace(rest[0]))
    ensures Split(word + rest) == [word] + Split(rest)
  {
    var t := word + rest;
    assert SkipSpaces(t) == t;
    WordRun(word, rest);
    assert t[..|word|] == word && t[|word|..] == rest;
  }

  /** Splitting recovers the words of every layout: whitespace around and between them does not matter. */
  lemma {:induction false} SplitOfLayout(lead: string, words: seq<string>, gaps: seq<string>)
    requires AllSpaces(lead) && Layout(words, gaps)
    ensures Split(lead + Laid(words, gaps)) == words
    decreases |words|
  {
    SplitLeading(lead, Laid(words, gaps));
    if words == [] {
    } else {
      var rest := gaps[0] + Laid(words[1..], gaps[1..]);
      LaidRest(words, gaps);
      SplitFirstWord(words[0], rest);
      SplitOfLayout(gaps[0], words[1..], gaps[1..]);
      assert words == [words[0]] + words[1..];
    }
  }

  /** Behind its first word, a layout goes on with the gap, or ends. */
  lemma LaidRest(words: seq<string>, gaps: seq<string>)
    requires Layout(words, gaps) && words != []
    ensures Layout(words[1..], gaps[1..])
    ensures Laid(words, gaps) == words[0] + (gaps[0] + Laid(words[1..], gaps[1..]))
    ensures var rest := gaps[0] + Laid(words[1..], gaps[1..]); rest == [] || IsSpace(rest[0])
  {
    LayoutRest(words, gaps);
    var tail := Laid(words[1..], gaps[1..]);
    assert words[0] + gaps[0] + tail == words[0] + (gaps[0] + tail);
    if gaps[0] == [] {
      assert words[1..] == [] && tail == [];
    } else {
      assert (gaps[0] + tail)[0] == gaps[0][0];
    }
  }

  lemma LayoutRest(words: seq<string>, gaps: seq<string>)
    requires Layout(words, gaps) && words != []
    ensures Layout(words[1..], gaps[1..])
    ensures gaps[0] == [] ==> |words| == 1
  {
  }

  lemma {:induction false} LeadingSpaces(s: string) returns (lead: string)
    ensures AllSpaces(lead) && s == lead + SkipSpaces(s)
  {
    if s != [] && IsSpace(s[0]) {
      var l := LeadingSpaces(s[1..]);
      lead := [s[0]] + l;
    } else {
      lead := "";
    }
  }

  lemma LaidStart(words: seq<string>, gaps: seq<string>)
    requires Layout(words, gaps) && words != []
    ensures Laid(words, gaps) != [] && !IsSpace(Laid(words, gaps)[0])
  {
    assert Laid(words, gaps)[0] == words[0][0];
  }

  lemma FirstWord(t: string)
    requires t != [] && !IsSpace(t[0])
    ensures var n := WordLength(t);
            && n > 0 && IsWord(t[..n]) && t == t[..n] + t[n..]
            && (t[n..] != [] ==> IsSpace(t[n..][0]))
  {
  }

  /** A word, a gap and a layout behind them are a layout. */
  lemma LayoutCons(word: string, gap: string, words: seq<string>, gaps: seq<string>, rest: string)
    requires IsWord(word) && AllSpaces(gap) && Layout(words, gaps) && rest == gap + Laid(words, gaps)
    requires rest != [] ==> IsSpace(rest[0])
    ensures Layout([word] + words, [gap] + gaps) && Laid([word] + words, [gap] + gaps) == word + rest
  {
    if words != [] {
      LaidStart(words, gaps);
      assert rest[0] == (gap + Laid(words, gaps))[0];
    }
    assert ([word] + words)[1..] == words && ([gap] + gaps)[1..] == gaps;
  }

  /** Conversely, every text is a layout of the words it splits into. */
  lemma {:induction false} EveryTextIsLaidOut(s: string) returns (lead: string, gaps: seq<string>)
    ensures AllSpaces(lead) && Layout(Split(s), gaps) && s == lead + Laid(Split(s), gaps)
    decreases |s|
  {
    lead := LeadingSpaces(s);
    var t := SkipSpaces(s);
    if t == [] {
      gaps := [];
    } else {
      FirstWord(t);
      var word, rest := t[..WordLength(t)], t[WordLength(t)..];
      var gap, more := EveryTextIsLaidOut(rest);
      gaps := [gap] + more;
      LayoutCons(word, gap, Split(rest), more, rest);
    }
  }

  lemma {:induction false} TrailingSpaces(s: string) returns (trail: string)
    ensures AllSpaces(trail) && s == DropTrailing(s) + trail
  {
    if s != [] && IsSpace(s[|s| - 1]) {
      var t := TrailingSpaces(s[..|s| - 1]);
      trail := t + [s[|s| - 1]];
      assert s == s[..|s| - 1] + [s[|s| - 1]];
    } else {
      trail := "";
    }
  }

  lemma {:induction false} LaidTrailing(words: seq<string>, gaps: seq<string>, trail: string)
    returns (gaps': seq<string>)
    requires Layout(words, gaps) && words != [] && AllSpaces(trail)
    ensures Layout(words, gaps') && Laid(words, gaps') == Laid(words, gaps) + trail
  {
    if |words| == 1 {
      gaps' := [gaps[0] + trail];
    } else {
      var more := LaidTrailing(words[1..], gaps[1..], trail);
      gaps' := [gaps[0]] + more;
      assert gaps'[1..] == more;
    }
  }

  lemma SplitSpaces(s: string)
    requires AllSpaces(s)
    ensures Split(s) == []
  {
    SkipLeading(s, "");
    assert s + "" == s;
  }

  lemma {:induction false} SplitTrailing(core: string, trail: string)
    requires AllSpaces(trail)
    ensures Split(core + trail) == Split(core)
  {
    var lead, gaps := EveryTextIsLaidOut(core);
    var words := Split(core);
    if words == [] {
      assert core == lead;
      SplitSpaces(core + trail);
    } else {
      var gaps' := LaidTrailing(words, gaps, trail);
      assert core + trail == lead + Laid(words, gaps');
      SplitOfLayout(lead, words, gaps');
    }
  }

  /** Stripping does not change the words, and nothing is left exactly when there are none. */
  lemma SplitOfStrip(s: string)
    ensures Split(Strip(s)) == Split(s)
    ensures Strip(s) == [] <==> Split(s) == []
  {
    var lead := LeadingSpaces(s);
    var t := SkipSpaces(s);
    var trail := TrailingSpaces(t);
    SplitLeading(lead, t);
    SplitTrailing(Strip(s), trail);
    StripStart(s);
  }

  /** Stripping takes away exactly the whitespace at both ends. */
  lemma StripExactly(s: string) returns (lead: string, trail: string)
    ensures AllSpaces(lead) && AllSpaces(trail) && s == lead + Strip(s) + trail
    ensures Strip(s) != [] ==> !IsSpace(Strip(s)[0]) && !IsSpace(Strip(s)[|Strip(s)| - 1])
  {
    lead := LeadingSpaces(s);
    var t := SkipSpaces(s);
    trail := TrailingSpaces(t);
    DropTrailingEnd(t);
    assert s == lead + (Strip(s) + trail);
    if Strip(s) != [] {
      assert Strip(s)[0] == t[0];
    }
  }

  lemma {:induction false} DropTrailingEnd(s: string)
    ensures DropTrailing(s) != [] ==> !IsSpace(DropTrailing(s)[|DropTrailing(s)| - 1])
  {
    if s != [] && IsSpace(s[|s| - 1]) {
      DropTrailingEnd(s[..|s| - 1]);
    }
  }

  /** The ASCII characters that str.split() and str.strip() take for whitespace. */
  lemma SpacesAre(c: char)
    ensures IsSpace(c) <==> c as int in {9, 10, 11, 12, 13, 28, 29, 30, 31, 32}
  {
  }

  lemma StripStart(s: string)
    ensures Strip(s) != [] ==> Split(Strip(s)) != []
  {
    var t := SkipSpaces(s);
    var trail := TrailingSpaces(t);
    if Strip(s) != [] {
      assert Strip(s)[0] == t[0];
    }
  }
}
