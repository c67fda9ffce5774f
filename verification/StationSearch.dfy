/**
 Normalising a station search: three regular-expression substitutions run one after another over the
 whole text, and the word-by-word function they amount to. Character classes are those of ASCII text.
 */
module StationSearch {
  import opened Sequences

  predicate IsDigit(c: char) { '0' <= c <= '9' }

  predicate IsWord(c: char) { IsDigit(c) || 'a' <= c <= 'z' || 'A' <= c <= 'Z' || c == '_' }

  function Lower(c: char): char {
    if 'A' <= c <= 'Z' then ((c as int) + 32) as char else c
  }

  /** "st", "nd", "rd" or "th", in any case. */
  predicate IsOrdinal(a: char, b: char) {
    var x, y := Lower(a), Lower(b);
    (x == 's' && y == 't') || (x == 'n' && y == 'd') || (x == 'r' && y == 'd') || (x == 't' && y == 'h')
  }

  // ----- the substitutions, scanning from the left -----

  function DigitRun(s: string): (n: nat)
    ensures n <= |s| && (forall i | 0 <= i < n :: IsDigit(s[i])) && (n < |s| ==> !IsDigit(s[n]))
  {
    if s == [] || !IsDigit(s[0]) then 0 else 1 + DigitRun(s[1..])
  }

  /** `(\d+)(st|nd|rd|th)\b` matches at the start of `s`. A shorter run of digits would be followed by a
      digit, so only the longest can match. */
  predicate OrdinalHere(s: string) {
    var d := DigitRun(s);
    0 < d && d + 2 <= |s| && IsOrdinal(s[d], s[d + 1]) && (d + 2 == |s| || !IsWord(s[d + 2]))
  }

  function SubOrdinals(s: string): string
    decreases |s|
  {
    if s == [] then []
    else if OrdinalHere(s) then s[..DigitRun(s)] + SubOrdinals(s[DigitRun(s) + 2..])
    else [s[0]] + SubOrdinals(s[1..])
  }

  /** `\bword\b` matches at the start of `s`, where `inside` says that a word character precedes. */
  predicate WordHere(inside: bool, s: string, word: string) {
    !inside && word <= s && (|s| == |word| || !IsWord(s[|word|]))
  }

  function SubWord(inside: bool, s: string, word: string, short: string): string
    requires word != []
    decreases |s|
  {
    if s == [] then []
    else if WordHere(inside, s, word) then short + SubWord(true, s[|word|..], word, short)
    else [s[0]] + SubWord(IsWord(s[0]), s[1..], word, short)
  }

  function Clean(s: string): string {
    SubWord(false, SubWord(false, SubOrdinals(s), "street", "st"), "avenue", "av")
  }

  // ----- the words of a text -----

  function WordRun(s: string): (n: nat)
    ensures n <= |s| && (forall i | 0 <= i < n :: IsWord(s[i])) && (n < |s| ==> !IsWord(s[n]))
  {
    if s == [] || !IsWord(s[0]) then 0 else 1 + WordRun(s[1..])
  }

  ghost predicate AllWord(w: string) { forall c | c in w :: IsWord(c) }

  ghost predicate IsRun(w: string) { w != [] && AllWord(w) }

  /** The maximal runs of word characters, in order. */
  function Words(s: string): seq<string>
    decreases |s|
  {
    if s == [] then []
    else if IsWord(s[0]) then [s[..WordRun(s)]] + Words(s[WordRun(s)..])
    else Words(s[1..])
  }

  function IsSeparator(): char -> bool { (c: char) => !IsWord(c) }

  /** Each word replaced by `f` of it, the separators left in place. */
  function MapWords(s: string, f: string -> string): string
    decreases |s|
  {
    if s == [] then []
    else if IsWord(s[0]) then f(s[..WordRun(s)]) + MapWords(s[WordRun(s)..], f)
    else [s[0]] + MapWords(s[1..], f)
  }

  function StripOrdinal(w: string): string {
    var n := |w|;
    if n >= 3 && IsDigit(w[n - 3]) && IsOrdinal(w[n - 2], w[n - 1]) then w[..n - 2] else w
  }

  function Shorten(word: string, short: string): string -> string {
    (w: string) => if w == word then short else w
  }

  /** One word normalised: its ordinal ending dropped, then "street" and "avenue" abbreviated. */
  function Normalise(w: string): string {
    Shorten("avenue", "av")(Shorten("street", "st")(StripOrdinal(w)))
  }

  // ----- the scans are word by word -----

  /** `rest` does not continue a word. */
  predicate Breaks(rest: string) { rest == [] || !IsWord(rest[0]) }

  lemma {:induction false} RunOf(w: string, rest: string)
    requires IsRun(w) && Breaks(rest)
    ensures WordRun(w + rest) == |w|
    ensures (w + rest)[..|w|] == w && (w + rest)[|w|..] == rest
  {
    var s := w + rest;
    assert forall i | 0 <= i < |w| :: s[i] == w[i] && w[i] in w;
    assert |w| < |s| ==> s[|w|] == rest[0];
  }

  /** An ordinal found at the start of a word takes up the whole word. */
  lemma OrdinalFillsWord(w: string, rest: string)
    requires IsRun(w) && Breaks(rest) && OrdinalHere(w + rest)
    ensures DigitRun(w + rest) + 2 == |w|
    ensures StripOrdinal(w) == w[..|w| - 2]
  {
    var s := w + rest;
    var d := DigitRun(s);
    assert forall i | 0 <= i < |w| :: s[i] == w[i] && w[i] in w;
    assert |w| < |s| ==> s[|w|] == rest[0];
    assert IsWord(s[d]) && IsWord(s[d + 1]);
    assert forall i | 0 <= i < d :: IsWord(s[i]);
  }

  lemma OrdinalLater(w: string, rest: string)
    requires IsRun(w) && Breaks(rest) && !OrdinalHere(w + rest)
    ensures StripOrdinal(w) == [w[0]] + StripOrdinal(w[1..])
  {
    var s := w + rest;
    assert |w| >= 3 ==> s[0] == w[0] && s[1] == w[1] && s[2] == w[2];
    assert |w| < |s| ==> s[|w|] == rest[0];
    assert [w[0]] + w[1..] == w;
  }

  lemma OrdinalTaken(w: string, rest: string)
    requires IsRun(w) && Breaks(rest) && OrdinalHere(w + rest)
    ensures SubOrdinals(w + rest) == StripOrdinal(w) + SubOrdinals(rest)
  {
    OrdinalFillsWord(w, rest);
    var s := w + rest;
    assert s[..|w| - 2] == w[..|w| - 2] && s[|w|..] == rest;
  }

  lemma OrdinalSkipped(w: string, rest: string)
    requires w != [] && !OrdinalHere(w + rest)
    ensures SubOrdinals(w + rest) == [w[0]] + SubOrdinals(w[1..] + rest)
  {
    assert (w + rest)[1..] == w[1..] + rest;
  }

  lemma {:induction false} OrdinalsInWord(w: string, rest: string)
    requires AllWord(w) && Breaks(rest)
    ensures SubOrdinals(w + rest) == StripOrdinal(w) + SubOrdinals(rest)
    decreases |w|
  {
    if w == [] {
      assert w + rest == rest;
    } else if OrdinalHere(w + rest) {
      OrdinalTaken(w, rest);
    } else {
      OrdinalSkipped(w, rest);
      OrdinalsInWord(w[1..], rest);
      OrdinalLater(w, rest);
      Reassociate([w[0]], StripOrdinal(w[1..]), SubOrdinals(rest));
    }
  }

  lemma {:induction false} OrdinalsWordWise(s: string)
    ensures SubOrdinals(s) == MapWords(s, StripOrdinal)
    decreases |s|
  {
    if s == [] {
    } else {
      var n := WordRun(s);
      if IsWord(s[0]) {
        var w, rest := s[..n], s[n..];
        assert s == w + rest;
        OrdinalsInWord(w, rest);
        OrdinalsWordWise(rest);
      } else {
        OrdinalsWordWise(s[1..]);
      }
    }
  }

  /** Inside a word nothing is replaced until the word ends. */
  lemma {:induction false} RestOfWord(w: string, rest: string, word: string, short: string)
    requires AllWord(w) && Breaks(rest) && IsRun(word)
    ensures SubWord(true, w + rest, word, short) == w + SubWord(false, rest, word, short)
    decreases |w|
  {
    var s := w + rest;
    if w == [] {
      assert s == rest;
      if rest != [] {
        assert word[0] in word;
        assert !WordHere(false, rest, word);
      }
    } else {
      assert s[1..] == w[1..] + rest;
      assert s[0] == w[0] && w[0] in w;
      RestOfWord(w[1..], rest, word, short);
    }
  }

  lemma WordAtStart(w: string, rest: string, word: string)
    requires IsRun(w) && Breaks(rest) && IsRun(word)
    ensures WordHere(false, w + rest, word) <==> w == word
  {
    var s := w + rest;
    assert s[..|w|] == w;
    assert forall i | 0 <= i < |w| :: s[i] == w[i] && w[i] in w;
    assert forall i | 0 <= i < |word| :: word[i] in word;
    assert |w| < |s| ==> s[|w|] == rest[0];
    if WordHere(false, s, word) {
      assert forall i | 0 <= i < |word| :: s[i] == word[i];
      assert |word| == |w|;
    }
  }

  lemma WholeWord(w: string, rest: string, word: string, short: string)
    requires IsRun(w) && Breaks(rest) && IsRun(word)
    ensures SubWord(false, w + rest, word, short) == Shorten(word, short)(w) + SubWord(false, rest, word, short)
  {
    WordAtStart(w, rest, word);
    if w == word {
      RestOfWord([], rest, word, short);
      assert (w + rest)[|word|..] == [] + rest;
    } else {
      assert w[0] in w;
      assert (w + rest)[1..] == w[1..] + rest;
      RestOfWord(w[1..], rest, word, short);
      assert [w[0]] + (w[1..] + SubWord(false, rest, word, short)) == w + SubWord(false, rest, word, short);
    }
  }

  lemma {:induction false} WordsWordWise(s: string, word: string, short: string)
    requires IsRun(word)
    ensures SubWord(false, s, word, short) == MapWords(s, Shorten(word, short))
    decreases |s|
  {
    if s == [] {
    } else {
      var n := WordRun(s);
      if IsWord(s[0]) {
        var w, rest := s[..n], s[n..];
        assert s == w + rest;
        WholeWord(w, rest, word, short);
        WordsWordWise(rest, word, short);
      } else {
        assert word[0] in word;
        WordsWordWise(s[1..], word, short);
      }
    }
  }

  // ----- mapping words -----

  /** `f` turns words into words. */
  ghost predicate KeepsRuns(f: string -> string) {
    forall w :: IsRun(w) ==> IsRun(f(w))
  }

  lemma {:induction false} MapWordsStarts(s: string, f: string -> string)
    requires KeepsRuns(f)
    ensures Breaks(s) ==> Breaks(MapWords(s, f))
  {
  }

  lemma FirstRun(s: string)
    requires s != [] && IsWord(s[0])
    ensures IsRun(s[..WordRun(s)]) && Breaks(s[WordRun(s)..]) && s == s[..WordRun(s)] + s[WordRun(s)..]
  {
    var w := s[..WordRun(s)];
    assert forall i | 0 <= i < |w| :: IsWord(w[i]);
  }

  /** Replacing words keeps the separators, and the words of the result are the replaced words. */
  lemma {:induction false} MapWordsMeaning(s: string, f: string -> string)
    requires KeepsRuns(f)
    ensures Words(MapWords(s, f)) == Map(Words(s), f)
    ensures Filter(MapWords(s, f), IsSeparator()) == Filter(s, IsSeparator())
    decreases |s|
  {
    if s == [] {
    } else {
      if IsWord(s[0]) {
        var w, rest := s[..WordRun(s)], s[WordRun(s)..];
        FirstRun(s);
        MapWordsMeaning(rest, f);
        MapWordsStarts(rest, f);
        RunOf(f(w), MapWords(rest, f));
        assert (f(w) + MapWords(rest, f))[0] in f(w);
        assert ([w] + Words(rest))[1..] == Words(rest);
        FilterConcat(w, rest, IsSeparator());
        FilterConcat(f(w), MapWords(rest, f), IsSeparator());
        FilterNone(w, IsSeparator());
        FilterNone(f(w), IsSeparator());
      } else {
        MapWordsMeaning(s[1..], f);
        assert ([s[0]] + MapWords(s[1..], f))[1..] == MapWords(s[1..], f);
      }
    }
  }

  lemma {:induction false} MapWordsTwice(s: string, f: string -> string, g: string -> string, h: string -> string)
    requires KeepsRuns(f) && forall w | IsRun(w) :: g(f(w)) == h(w)
    ensures MapWords(MapWords(s, f), g) == MapWords(s, h)
    decreases |s|
  {
    if s == [] {
    } else {
      if IsWord(s[0]) {
        var w, rest := s[..WordRun(s)], s[WordRun(s)..];
        FirstRun(s);
        MapWordsTwice(rest, f, g, h);
        MapWordsStarts(rest, f);
        RunOf(f(w), MapWords(rest, f));
        assert (f(w) + MapWords(rest, f))[0] in f(w);
      } else {
        MapWordsTwice(s[1..], f, g, h);
        assert ([s[0]] + MapWords(s[1..], f))[1..] == MapWords(s[1..], f);
      }
    }
  }

  lemma RunsKept()
    ensures KeepsRuns(StripOrdinal) && KeepsRuns(Shorten("street", "st")) && KeepsRuns(Shorten("avenue", "av"))
    ensures KeepsRuns(Normalise)
    ensures IsRun("street") && IsRun("avenue")
  {
    assert IsRun("street") && IsRun("avenue") && IsRun("st") && IsRun("av");
    forall w | IsRun(w) ensures IsRun(StripOrdinal(w)) {
      assert forall c | c in StripOrdinal(w) :: c in w;
    }
  }

  /** The three scans, one after another, normalise the text word by word: each word on its own, the
      separators untouched. */
  lemma CleanIsWordWise(s: string)
    ensures Clean(s) == MapWords(s, Normalise)
    ensures Words(Clean(s)) == Map(Words(s), Normalise)
    ensures Filter(Clean(s), IsSeparator()) == Filter(s, IsSeparator())
  {
    RunsKept();
    var street, avenue := Shorten("street", "st"), Shorten("avenue", "av");
    var both := (w: string) => street(StripOrdinal(w));
    OrdinalsWordWise(s);
    WordsWordWise(SubOrdinals(s), "street", "st");
    MapWordsTwice(s, StripOrdinal, street, both);
    WordsWordWise(MapWords(s, both), "avenue", "av");
    assert KeepsRuns(both);
    MapWordsTwice(s, both, avenue, Normalise);
    MapWordsMeaning(s, Normalise);
  }

  lemma NormaliseTwice(w: string)
    ensures Normalise(Normalise(w)) == Normalise(w)
  {
    var o := StripOrdinal(w);
    assert StripOrdinal(o) == o;
    assert StripOrdinal("st") == "st" && StripOrdinal("av") == "av";
  }

  /** Cleaning a cleaned text changes nothing. */
  lemma CleanIsIdempotent(s: string)
    ensures Clean(Clean(s)) == Clean(s)
  {
    CleanIsWordWise(s);
    CleanIsWordWise(Clean(s));
    RunsKept();
    forall w | IsRun(w) ensures Normalise(Normalise(w)) == Normalise(w) {
      NormaliseTwice(w);
    }
    MapWordsTwice(s, Normalise, Normalise, Normalise);
  }

  // ----- the same in plain text -----

  /** The character classes, written out. */
  lemma CharacterClasses(c: char)
    ensures IsDigit(c) <==> c in "0123456789"
    ensures IsWord(c) <==>
            c in "0123456789" || c in "abcdefghijklmnopqrstuvwxyz" || c in "ABCDEFGHIJKLMNOPQRSTUVWXYZ" || c == '_'
  {
    InAlphabet("0123456789", '0', c);
    InAlphabet("abcdefghijklmnopqrstuvwxyz", 'a', c);
    InAlphabet("ABCDEFGHIJKLMNOPQRSTUVWXYZ", 'A', c);
  }

  /** Membership in a list of consecutive characters. */
  lemma InAlphabet(s: string, first: char, c: char)
    requires forall i :: 0 <= i < |s| ==> s[i] as int == first as int + i
    ensures c in s <==> first as int <= c as int < first as int + |s|
  {
    if first as int <= c as int < first as int + |s| {
      assert s[c as int - first as int] == c;
    }
  }

  /** The endings of ordinals, written out. */
  predicate OrdinalText(s: string) {
    || s in {"st", "nd", "rd", "th"}
    || s in {"St", "Nd", "Rd", "Th"}
    || s in {"sT", "nD", "rD", "tH"}
    || s in {"ST", "ND", "RD", "TH"}
  }

  lemma OrdinalIsText(a: char, b: char)
    ensures IsOrdinal(a, b) <==> OrdinalText([a, b])
  {
    assert [a, b][0] == a && [a, b][1] == b;
    if IsOrdinal(a, b) {
      assert a in ['s', 'S', 'n', 'N', 'r', 'R', 't', 'T'];
      assert b in ['t', 'T', 'd', 'D', 'h', 'H'];
    }
  }

  /** A text that ends in a digit loses two more characters exactly when they spell an ordinal ending. */
  lemma OrdinalEnding(w: string, a: char, b: char)
    requires w != "" && w[|w| - 1] in "0123456789"
    ensures Normalise(w + [a, b]) == w <==> OrdinalText([a, b])
  {
    var all := w + [a, b];
    CharacterClasses(w[|w| - 1]);
    OrdinalIsText(a, b);
    assert all[..|all| - 2] == w;
    assert all[|all| - 3] == w[|w| - 1] && all[|all| - 2] == a && all[|all| - 1] == b;
    assert w != "street" && w != "avenue" && all != "street" && all != "avenue";
  }

  /** A word keeps its text unless it is one of the two names or a number with an ordinal ending. */
  lemma NormaliseMeaning(w: string)
    ensures Normalise("street") == "st" && Normalise("avenue") == "av"
    ensures w == "street" || w == "avenue" || Normalise(w) == w
            || (|w| >= 3 && w[|w| - 3] in "0123456789" && OrdinalText(w[|w| - 2..]) && Normalise(w) == w[..|w| - 2])
  {
    if |w| >= 3 {
      CharacterClasses(w[|w| - 3]);
      OrdinalIsText(w[|w| - 2], w[|w| - 1]);
      assert w[|w| - 2..] == [w[|w| - 2], w[|w| - 1]];
    }
  }

  ghost predicate NoWord(s: string) { forall c | c in s :: !IsWord(c) }

  lemma {:induction false} SkipSeparators(sep: string, rest: string, f: string -> string)
    requires NoWord(sep)
    ensures MapWords(sep + rest, f) == sep + MapWords(rest, f) && Words(sep + rest) == Words(rest)
  {
    if sep == [] {
      assert sep + rest == rest && sep + MapWords(rest, f) == MapWords(rest, f);
    } else {
      SkipSeparators(sep[1..], rest, f);
      assert (sep + rest)[0] == sep[0] && sep[0] in sep && (sep + rest)[1..] == sep[1..] + rest;
      assert [sep[0]] + (sep[1..] + MapWords(rest, f)) == sep + MapWords(rest, f);
    }
  }

  lemma TakeWord(w: string, rest: string, f: string -> string)
    requires IsRun(w) && Breaks(rest)
    ensures MapWords(w + rest, f) == f(w) + MapWords(rest, f) && Words(w + rest) == [w] + Words(rest)
  {
    RunOf(w, rest);
    assert (w + rest)[0] == w[0] && w[0] in w;
  }

  lemma PiecesOf(sep: string, w: string, rest: string, f: string -> string)
    requires NoWord(sep) && IsRun(w) && Breaks(rest)
    ensures MapWords(sep, f) == sep && Words(sep) == []
    ensures MapWords(sep + w + rest, f) == sep + f(w) + MapWords(rest, f)
    ensures Words(sep + w + rest) == [w] + Words(rest)
  {
    SkipSeparators(sep, [], f);
    assert sep + [] == sep;
    SkipSeparators(sep, w + rest, f);
    TakeWord(w, rest, f);
    Reassociate(sep, w, rest);
    Reassociate(sep, f(w), MapWords(rest, f));
  }

  /** Cleaning, piece by piece: separators stay, the next word is normalised, the rest is cleaned alike. */
  lemma CleanPieces(sep: string, w: string, rest: string)
    requires NoWord(sep) && IsRun(w) && Breaks(rest)
    ensures Clean(sep) == sep
    ensures Clean(sep + w + rest) == sep + Normalise(w) + Clean(rest)
    ensures Words(sep) == [] && Words(sep + w + rest) == [w] + Words(rest)
  {
    CleanIsWordWise(sep);
    CleanIsWordWise(sep + w + rest);
    CleanIsWordWise(rest);
    PiecesOf(sep, w, rest, Normalise);
  }
}
