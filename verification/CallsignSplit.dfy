/** SplitCallsign: variable part, prefix and game suffix of a callsign. */
module CallsignSplit {
  import opened Wrappers
  import opened GoStrings

  /** Where the longest tail of `s` whose characters all satisfy `p` begins. */
  function RunStart(s: string, p: char -> bool): (k: nat)
    ensures k <= |s|
    ensures forall i | k <= i < |s| :: p(s[i])
    ensures k > 0 ==> !p(s[k - 1])
  {
    if s != "" && p(s[|s| - 1]) then RunStart(s[..|s| - 1], p) else |s|
  }

  lemma RunStartIs(s: string, p: char -> bool, k: nat)
    requires k <= |s| && (forall i | k <= i < |s| :: p(s[i])) && (k > 0 ==> !p(s[k - 1]))
    ensures RunStart(s, p) == k
  {}

  predicate NonSpace(c: char) {
    !IsSpace(c)
  }

  predicate IsDigit(c: char) {
    '0' <= c <= '9'
  }

  /** strings.Fields */
  function Fields(s: string): (words: seq<string>) {
    if s == "" then []
    else if IsSpace(s[|s| - 1]) then Fields(s[..|s| - 1])
    else
      var k := RunStart(s, NonSpace);
      Fields(s[..k]) + [s[k..]]
  }

  // ----- the suffix -----

  /** What \s matches in Go's regular expressions: the vertical tab is not one of them. */
  predicate IsBlank(c: char) {
    IsSpace(c) && c as int != 11
  }

  /** The two character classes of the expression, by code. */
  lemma ClassesIff(c: char)
    ensures IsBlank(c) <==> c as int in {9, 10, 12, 13, 32}
    ensures IsDigit(c) <==> 48 <= c as int <= 57
  {}

  /** `word`, in either case, and then blanks up to `e`. */
  predicate WordThenBlanks(s: string, w: nat, word: string, e: nat) {
    w + |word| < e <= |s| && ToUpper(s[w..w + |word|]) == word && forall i | w + |word| <= i < e :: IsBlank(s[i])
  }

  /** A match of the expression (?i)\s+FLIGHT\s+OF\s+(\d+)$ : blanks from `a`, FLIGHT at `b`, OF at `c`, the
      digits from `d` to the end. */
  predicate FlightOfMatch(s: string, a: nat, b: nat, c: nat, d: nat) {
    && a < b <= |s| && (forall i | a <= i < b :: IsBlank(s[i]))
    && WordThenBlanks(s, b, "FLIGHT", c) && WordThenBlanks(s, c, "OF", d)
    && d < |s| && (forall i | d <= i < |s| :: IsDigit(s[i]))
  }

  /** The parts of the last match: where it starts and where its digits start. */
  datatype Found = Found(start: nat, digits: nat)

  /** The start of `word`, in either case, when it and then blanks come just before position `e`. */
  function Before(s: string, e: nat, word: string): (r: Option<nat>)
    requires e <= |s|
    ensures r.Some? ==> r.value + |word| < e
  {
    var w := RunStart(s[..e], IsBlank);
    if w == e || w < |word| || ToUpper(s[w - |word|..w]) != word then None else Some(w - |word|)
  }

  /** Word by word from the end: digits, OF, FLIGHT, each after blanks. */
  function FindFlightOf(s: string): (r: Option<Found>)
    ensures r.Some? ==> r.value.start <= |s| && r.value.digits <= |s|
  {
    var d := RunStart(s, IsDigit);
    if d == |s| then None
    else match Before(s, d, "OF")
      case None => None
      case Some(c) =>
        match Before(s, c, "FLIGHT")
        case None => None
        case Some(b) =>
          var a := RunStart(s[..b], IsBlank);
          if a == b then None else Some(Found(a, d))
  }

  predicate IsUpperWord(word: string) {
    forall i | 0 <= i < |word| :: 'A' <= word[i] <= 'Z'
  }

  lemma UpperLetter(s: string, word: string)
    requires ToUpper(s) == word && IsUpperWord(word)
    ensures |s| == |word| && forall i | 0 <= i < |s| :: !IsSpace(s[i]) && !IsDigit(s[i])
  {
    forall i | 0 <= i < |s| ensures !IsSpace(s[i]) && !IsDigit(s[i]) {
      assert ToUpper(s)[i] == word[i];
    }
  }

  /** What was found is a match, and the leftmost one; and when nothing was found nothing matches. */
  lemma FindFlightOfIsLeftmost(s: string)
    ensures var r := FindFlightOf(s);
            && (r.Some? ==> exists b, c :: FlightOfMatch(s, r.value.start, b, c, r.value.digits))
            && (forall a, b, c, d | FlightOfMatch(s, a, b, c, d) ::
                  r.Some? && r.value.start <= a && r.value.digits == d)
  {
    var r := FindFlightOf(s);
    if r.Some? {
      FoundIsMatch(s);
    }
    forall a, b, c, d | FlightOfMatch(s, a, b, c, d) ensures r.Some? && r.value.start <= a && r.value.digits == d {
      MatchIsFound(s, a, b, c, d);
    }
  }

  lemma BeforeIff(s: string, e: nat, word: string, w: nat)
    requires e <= |s| && word != "" && IsUpperWord(word)
    ensures Before(s, e, word) == Some(w) <==> WordThenBlanks(s, w, word, e)
  {
    if WordThenBlanks(s, w, word, e) {
      var n := w + |word|;
      UpperLetter(s[w..n], word);
      assert s[w..n][|word| - 1] == s[n - 1] && s[n - 1] in s[w..n];
      RunStartIs(s[..e], IsBlank, n);
    }
  }

  lemma FoundIsMatch(s: string)
    requires FindFlightOf(s).Some?
    ensures var r := FindFlightOf(s).value; exists b, c :: FlightOfMatch(s, r.start, b, c, r.digits)
  {
    var d := RunStart(s, IsDigit);
    var c := Before(s, d, "OF").value;
    BeforeIff(s, d, "OF", c);
    var b := Before(s, c, "FLIGHT").value;
    BeforeIff(s, c, "FLIGHT", b);
    assert FlightOfMatch(s, RunStart(s[..b], IsBlank), b, c, d);
  }

  lemma MatchIsFound(s: string, a: nat, b: nat, c: nat, d: nat)
    requires FlightOfMatch(s, a, b, c, d)
    ensures var r := FindFlightOf(s); r.Some? && r.value.start <= a && r.value.digits == d
  {
    RunStartIs(s, IsDigit, d);
    BeforeIff(s, d, "OF", c);
    BeforeIff(s, c, "FLIGHT", b);
    RunStartReaches(s[..b], IsBlank, a);
  }

  lemma RunStartReaches(s: string, p: char -> bool, a: nat)
    requires a <= |s| && forall i | a <= i < |s| :: p(s[i])
    ensures RunStart(s, p) <= a
  {}

  // ----- the function -----

  datatype Parts = Parts(variable: string, prefix: string, suffix: string)

  /** The callsign without its suffix, and the suffix in standard spelling: the first case that holds. */
  function TakeOff(cs: string, heavy: bool, super: bool, flightOf: Option<Found>): (string, string)
    requires heavy || super ==> |cs| >= 6
    requires flightOf.Some? ==> flightOf.value.start <= |cs| && flightOf.value.digits <= |cs|
  {
    if heavy then (TrimSpace(cs[..|cs| - 6]), "Heavy")
    else if super then (TrimSpace(cs[..|cs| - 6]), "Super")
    else match flightOf
      case Some(m) => (TrimSpace(cs[..m.start]), "Flight of " + cs[m.digits..])
      case None => (cs, "")
  }

  function StripSuffix(cs: string): (string, string) {
    TakeOff(cs, HasSuffix(ToUpper(cs), " HEAVY"), HasSuffix(ToUpper(cs), " SUPER"), FindFlightOf(cs))
  }

  function Assemble(words: seq<string>, suffix: string): Parts {
    if words == [] then Parts("", "", suffix)
    else Parts(words[|words| - 1], Join(words[..|words| - 1], " "), suffix)
  }

  function SplitCallsign(raw: string): Parts {
    var (cs, suffix) := StripSuffix(TrimSpace(raw));
    Assemble(Fields(cs), suffix)
  }

  // ----- word by word -----

  predicate IsWord(w: string) {
    w != "" && forall i | 0 <= i < |w| :: !IsSpace(w[i])
  }

  predicate AllDigits(w: string) {
    w != "" && forall i | 0 <= i < |w| :: IsDigit(w[i])
  }

  predicate EndsInWord(t: seq<string>, word: string) {
    |t| >= 2 && ToUpper(t[|t| - 1]) == word
  }

  predicate EndsInFlightOf(t: seq<string>) {
    var n := |t|;
    n >= 4 && ToUpper(t[n - 3]) == "FLIGHT" && ToUpper(t[n - 2]) == "OF" && AllDigits(t[n - 1])
  }

  predicate EndsInSuffix(t: seq<string>) {
    EndsInWord(t, "HEAVY") || EndsInWord(t, "SUPER") || EndsInFlightOf(t)
  }

  /** Splitting by words alone: a suffix is a known last word, or the last three, after at least one more. */
  function SplitWords(t: seq<string>): Parts {
    var n := |t|;
    if EndsInWord(t, "HEAVY") then Assemble(t[..n - 1], "Heavy")
    else if EndsInWord(t, "SUPER") then Assemble(t[..n - 1], "Super")
    else if EndsInFlightOf(t) then Assemble(t[..n - 3], "Flight of " + t[n - 1])
    else Assemble(t, "")
  }

  lemma {:induction false} FieldsDropBlanks(s: string)
    ensures Fields(s[..RunStart(s, IsSpace)]) == Fields(s)
  {
    if s != "" && IsSpace(s[|s| - 1]) {
      FieldsDropBlanks(s[..|s| - 1]);
      assert s[..|s| - 1][..RunStart(s, IsSpace)] == s[..RunStart(s, IsSpace)];
    } else {
      assert s[..|s|] == s;
    }
  }

  lemma {:induction false} FieldsSkipBlank(c: char, s: string)
    requires IsSpace(c)
    ensures Fields([c] + s) == Fields(s)
  {
    var cs := [c] + s;
    if s == "" {
      assert cs[..0] == "";
    } else {
      assert cs[..|s|] == [c] + s[..|s| - 1];
      if IsSpace(s[|s| - 1]) {
        FieldsSkipBlank(c, s[..|s| - 1]);
      } else {
        var k := RunStart(s, NonSpace);
        RunStartIs(cs, NonSpace, k + 1);
        assert cs[..k + 1] == [c] + s[..k] && cs[k + 1..] == s[k..];
        FieldsSkipBlank(c, s[..k]);
      }
    }
  }

  lemma {:induction false} FieldsTrimLeft(s: string)
    ensures Fields(TrimLeft(s)) == Fields(s)
  {
    if s != "" && IsSpace(s[0]) {
      FieldsTrimLeft(s[1..]);
      FieldsSkipBlank(s[0], s[1..]);
      assert s == [s[0]] + s[1..];
    }
  }

  lemma {:induction false} FieldsTrimRight(s: string)
    ensures Fields(TrimRight(s)) == Fields(s)
  {
    if s != "" && IsSpace(s[|s| - 1]) {
      FieldsTrimRight(s[..|s| - 1]);
    }
  }

  lemma FieldsTrim(s: string)
    ensures Fields(TrimSpace(s)) == Fields(s)
  {
    FieldsTrimLeft(s);
    FieldsTrimRight(TrimLeft(s));
  }

  lemma {:induction false} FieldsAreWords(s: string)
    ensures forall i | 0 <= i < |Fields(s)| :: IsWord(Fields(s)[i])
    ensures Fields(s) == [] <==> forall i | 0 <= i < |s| :: IsSpace(s[i])
  {
    if s != "" {
      var n := |s| - 1;
      assert s[n] in s;
      if IsSpace(s[n]) {
        FieldsAreWords(s[..n]);
        assert s == s[..n] + [s[n]];
      } else {
        var k := RunStart(s, NonSpace);
        FieldsAreWords(s[..k]);
        assert IsWord(s[k..]);
      }
    }
  }

  /** The last word of `s` and what comes before it. */
  lemma LastWord(s: string) returns (k: nat, e: nat)
    requires Fields(s) != []
    ensures k < e <= |s| && Fields(s) == Fields(s[..k]) + [s[k..e]] && IsWord(s[k..e])
    ensures e == RunStart(s, IsSpace) && (k > 0 ==> IsSpace(s[k - 1]))
  {
    e := RunStart(s, IsSpace);
    FieldsDropBlanks(s);
    FieldsAreWords(s);
    assert e > 0;
    k := RunStart(s[..e], NonSpace);
    assert s[..e][..k] == s[..k] && s[..e][k..] == s[k..e];
    assert s[k..e] in Fields(s);
  }

  /** Blanks at the end change no words. */
  lemma {:induction false} FieldsCut(s: string, a: nat, b: nat)
    requires a <= b <= |s| && forall i | a <= i < b :: IsSpace(s[i])
    ensures Fields(s[..a]) == Fields(s[..b])
    decreases b - a
  {
    if a < b {
      FieldsCut(s, a, b - 1);
      assert s[..b][..b - 1] == s[..b - 1];
    }
  }

  lemma FieldsOfLast(s: string, k: nat)
    requires k < |s| && IsWord(s[k..]) && (k > 0 ==> IsSpace(s[k - 1]))
    ensures Fields(s) == Fields(s[..k]) + [s[k..]]
  {
    forall i | k <= i < |s| ensures NonSpace(s[i]) {
      assert s[k..][i - k] == s[i];
    }
    RunStartIs(s, NonSpace, k);
  }

  /** The converse: a word that ends where only blanks follow is the last one. */
  lemma FieldsAt(s: string, k: nat, e: nat)
    requires k < e <= |s| && IsWord(s[k..e]) && (k > 0 ==> IsSpace(s[k - 1]))
    requires forall i | e <= i < |s| :: IsSpace(s[i])
    ensures Fields(s) == Fields(s[..k]) + [s[k..e]]
  {
    FieldsCut(s, e, |s|);
    assert s[..|s|] == s && s[..e][..k] == s[..k] && s[..e][k..] == s[k..e];
    FieldsOfLast(s[..e], k);
  }

  /** The only blank in use is the space. */
  predicate Plain(s: string) {
    forall i | 0 <= i < |s| :: IsSpace(s[i]) ==> s[i] == ' '
  }

  predicate Trimmed(s: string) {
    s != "" && !IsSpace(s[0]) && !IsSpace(s[|s| - 1])
  }

  lemma NonEmptyFields(s: string)
    requires s != "" && !IsSpace(s[0])
    ensures Fields(s) != []
  {
    FieldsAreWords(s);
    assert s[0] in s;
  }

  lemma LeadingWord(cs: string, n: nat)
    requires Trimmed(cs) && n < |cs| && IsSpace(cs[n])
    ensures Fields(cs[..n]) != []
  {
    assert cs[..n][0] == cs[0];
    NonEmptyFields(cs[..n]);
  }

  /** Where the last word of a trimmed string begins; it is not at the front iff there is another word. */
  lemma TailWord(cs: string) returns (k: nat)
    requires Trimmed(cs)
    ensures k < |cs| && Fields(cs) == Fields(cs[..k]) + [cs[k..]] && IsWord(cs[k..]) && (k > 0 ==> IsSpace(cs[k - 1]))
    ensures k > 0 <==> |Fields(cs)| >= 2
  {
    NonEmptyFields(cs);
    RunStartIs(cs, IsSpace, |cs|);
    var e;
    k, e := LastWord(cs);
    assert cs[k..e] == cs[k..];
    FrontHasWords(cs, k);
  }

  lemma FrontHasWords(cs: string, k: nat)
    requires Trimmed(cs) && k < |cs|
    ensures k > 0 <==> Fields(cs[..k]) != []
  {
    if k > 0 {
      assert cs[..k][0] == cs[0];
      NonEmptyFields(cs[..k]);
    }
  }

  /** A last word with a space before it ends the string, and what is before the space are the other words. */
  lemma SuffixWordCut(cs: string, n: nat)
    requires Trimmed(cs) && 0 < n < |cs| && IsSpace(cs[n - 1]) && IsWord(cs[n..])
    ensures var t := Fields(cs); |t| >= 2 && t[|t| - 1] == cs[n..] && Fields(TrimSpace(cs[..n - 1])) == t[..|t| - 1]
  {
    FieldsOfLast(cs, n);
    FieldsCut(cs, n - 1, n);
    FieldsTrim(cs[..n - 1]);
    assert cs[..n][0] == cs[0];
    NonEmptyFields(cs[..n]);
  }

  lemma UpperDrop(cs: string, n: nat)
    requires 0 < n <= |cs|
    ensures ToUpper(cs)[n - 1..] == [Upper(cs[n - 1])] + ToUpper(cs[n..])
  {}

  lemma SameHead(a: char, s: string, b: char, t: string)
    ensures [a] + s == [b] + t <==> a == b && s == t
  {
    assert ([a] + s)[0] == a && ([b] + t)[0] == b && ([a] + s)[1..] == s && ([b] + t)[1..] == t;
  }

  lemma UpperSuffixIff(cs: string, word: string)
    ensures HasSuffix(ToUpper(cs), [' '] + word) <==>
            |word| < |cs| && cs[|cs| - |word| - 1] == ' ' && ToUpper(cs[|cs| - |word|..]) == word
  {
    var n := |cs| - |word|;
    if n > 0 {
      UpperDrop(cs, n);
      SameHead(Upper(cs[n - 1]), ToUpper(cs[n..]), ' ', word);
    }
  }

  /** HEAVY or SUPER after a space is exactly a last word after another word. */
  lemma SuffixWordIff(cs: string, word: string)
    requires Trimmed(cs) && Plain(cs) && |word| == 5 && IsUpperWord(word)
    ensures var t := Fields(cs);
            && (HasSuffix(ToUpper(cs), [' '] + word) <==> EndsInWord(t, word))
            && (HasSuffix(ToUpper(cs), [' '] + word) ==> Fields(TrimSpace(cs[..|cs| - 6])) == t[..|t| - 1])
  {
    var n := |cs| - 5;
    UpperSuffixIff(cs, word);
    if HasSuffix(ToUpper(cs), [' '] + word) {
      UpperLetter(cs[n..], word);
      SuffixWordCut(cs, n);
    }
    var k := TailWord(cs);
  }

  /** One word further back: a word in either case and the blanks up to `e`. */
  lemma PeelWord(s: string, w: nat, word: string, e: nat)
    requires WordThenBlanks(s, w, word, e) && word != "" && IsUpperWord(word)
    requires w > 0 ==> IsSpace(s[w - 1])
    ensures Fields(s[..e]) == Fields(s[..w]) + [s[w..w + |word|]]
  {
    UpperLetter(s[w..w + |word|], word);
    assert s[..e][w..w + |word|] == s[w..w + |word|] && s[..e][..w] == s[..w];
    FieldsAt(s[..e], w, w + |word|);
  }

  lemma DigitsAreWord(s: string, d: nat)
    requires d < |s| && forall i | d <= i < |s| :: IsDigit(s[i])
    ensures IsWord(s[d..]) && AllDigits(s[d..])
  {}

  lemma MatchFields(cs: string, a: nat, b: nat, c: nat, d: nat) returns (flight: string, of: string)
    requires FlightOfMatch(cs, a, b, c, d)
    ensures ToUpper(flight) == "FLIGHT" && ToUpper(of) == "OF" && AllDigits(cs[d..])
    ensures Fields(cs) == Fields(cs[..b]) + [flight] + [of] + [cs[d..]]
  {
    flight, of := cs[b..b + 6], cs[c..c + 2];
    DigitsAreWord(cs, d);
    FieldsOfLast(cs, d);
    PeelWord(cs, c, "OF", d);
    PeelWord(cs, b, "FLIGHT", c);
  }

  /** A match of the expression is made of the last three words, and something is left before it. */
  lemma MatchIsWords(cs: string, a: nat, b: nat, c: nat, d: nat)
    requires Trimmed(cs) && FlightOfMatch(cs, a, b, c, d)
    ensures var t := Fields(cs);
            EndsInFlightOf(t) && t[|t| - 1] == cs[d..] && Fields(cs[..a]) == t[..|t| - 3] && t[..|t| - 3] != []
  {
    var flight, of := MatchFields(cs, a, b, c, d);
    LeadingWord(cs, a);
    FieldsCut(cs, a, b);
    FlightOfWords(Fields(cs[..a]), flight, of, cs[d..]);
  }

  lemma FlightOfWords(front: seq<string>, flight: string, of: string, d: string)
    requires front != [] && ToUpper(flight) == "FLIGHT" && ToUpper(of) == "OF" && AllDigits(d)
    ensures var t := front + [flight] + [of] + [d]; EndsInFlightOf(t) && t[..|t| - 3] == front
  {}

  /** The last word of s[..e], where s[..e] ends with a blank. */
  lemma LastWordBefore(s: string, e: nat) returns (w: nat, n: nat)
    requires 0 < e <= |s| && IsSpace(s[e - 1]) && Fields(s[..e]) != []
    ensures w < n < e && Fields(s[..e]) == Fields(s[..w]) + [s[w..n]] && (w > 0 ==> IsSpace(s[w - 1]))
    ensures forall i | n <= i < e :: IsSpace(s[i])
  {
    w, n := LastWord(s[..e]);
    assert s[..e][..w] == s[..w] && s[..e][w..n] == s[w..n];
    assert s[w..n][n - 1 - w] == s[n - 1];
  }

  /** The last word of s[..e], known up to case. */
  lemma FindWord(s: string, e: nat, word: string) returns (w: nat)
    requires 0 < e <= |s| && Plain(s) && IsSpace(s[e - 1]) && Fields(s[..e]) != []
    requires var t := Fields(s[..e]); ToUpper(t[|t| - 1]) == word
    ensures WordThenBlanks(s, w, word, e) && (w > 0 ==> s[w - 1] == ' ')
    ensures var t := Fields(s[..e]); Fields(s[..w]) == t[..|t| - 1]
  {
    ghost var n;
    w, n := LastWordBefore(s, e);
    ghost var last := s[w..n];
    assert Fields(s[..e])[|Fields(s[..e])| - 1] == last;
    assert |last| == |word|;
  }

  lemma WordsAreMatch(cs: string)
    requires Trimmed(cs) && Plain(cs) && EndsInFlightOf(Fields(cs))
    ensures FindFlightOf(cs).Some?
  {
    var t := Fields(cs);
    var d := TailWord(cs);
    forall i | d <= i < |cs| ensures IsDigit(cs[i]) {
      assert cs[i] == cs[d..][i - d];
    }
    var c := FindWord(cs, d, "OF");
    var b := FindWord(cs, c, "FLIGHT");
    assert cs[..0] == "";
    assert FlightOfMatch(cs, b - 1, b, c, d);
    MatchIsFound(cs, b - 1, b, c, d);
  }

  lemma TrimKeeps(raw: string)
    ensures var cs := TrimSpace(raw); (cs == "" || Trimmed(cs)) && (Plain(raw) ==> Plain(cs))
  {
    var l := TrimLeft(raw);
    var cs := TrimSpace(raw);
    assert cs == l[..|cs|];
    if cs != "" {
      assert cs[0] == l[0];
    }
  }

  /** The expression matches exactly when the last words are FLIGHT OF and digits, after another word. */
  lemma FlightOfIff(cs: string)
    requires Trimmed(cs) && Plain(cs)
    ensures var t := Fields(cs); var m := FindFlightOf(cs);
            && (m.Some? <==> EndsInFlightOf(t))
            && (m.Some? ==> t[|t| - 1] == cs[m.value.digits..])
            && (m.Some? ==> Fields(TrimSpace(cs[..m.value.start])) == t[..|t| - 3])
  {
    if FindFlightOf(cs).Some? {
      FoundIsMatch(cs);
      var m := FindFlightOf(cs).value;
      var b, c :| FlightOfMatch(cs, m.start, b, c, m.digits);
      MatchIsWords(cs, m.start, b, c, m.digits);
      FieldsTrim(cs[..m.start]);
    } else if EndsInFlightOf(Fields(cs)) {
      WordsAreMatch(cs);
    }
  }

  lemma TakeOffIsSplitWords(cs: string, t: seq<string>, heavy: bool, super: bool, flightOf: Option<Found>)
    requires heavy <==> EndsInWord(t, "HEAVY")
    requires super <==> EndsInWord(t, "SUPER")
    requires flightOf.Some? <==> EndsInFlightOf(t)
    requires heavy || super ==> |cs| >= 6 && Fields(TrimSpace(cs[..|cs| - 6])) == t[..|t| - 1]
    requires flightOf.Some? ==> flightOf.value.start <= |cs| && flightOf.value.digits <= |cs|
    requires flightOf.Some? ==> t[|t| - 1] == cs[flightOf.value.digits..]
    requires flightOf.Some? ==> Fields(TrimSpace(cs[..flightOf.value.start])) == t[..|t| - 3]
    requires Fields(cs) == t
    ensures var (rest, suffix) := TakeOff(cs, heavy, super, flightOf); Assemble(Fields(rest), suffix) == SplitWords(t)
  {}

  predicate CutsLastWord(cs: string, suffix: string, word: string) {
    var t := Fields(cs);
    && (HasSuffix(ToUpper(cs), suffix) <==> EndsInWord(t, word))
    && (HasSuffix(ToUpper(cs), suffix) ==> |cs| >= 6 && Fields(TrimSpace(cs[..|cs| - 6])) == t[..|t| - 1])
  }

  lemma CutsSuffixWord(cs: string, suffix: string, word: string)
    requires Trimmed(cs) && Plain(cs) && |word| == 5 && IsUpperWord(word) && suffix == [' '] + word
    ensures CutsLastWord(cs, suffix, word)
  {
    SuffixWordIff(cs, word);
  }

  lemma StripIsSplitWords(cs: string)
    requires Trimmed(cs) && Plain(cs)
    ensures var (rest, suffix) := StripSuffix(cs); Assemble(Fields(rest), suffix) == SplitWords(Fields(cs))
  {
    CutsSuffixWord(cs, " HEAVY", "HEAVY");
    CutsSuffixWord(cs, " SUPER", "SUPER");
    FlightOfIff(cs);
    TakeOffIsSplitWords(cs, Fields(cs), HasSuffix(ToUpper(cs), " HEAVY"), HasSuffix(ToUpper(cs), " SUPER"),
                        FindFlightOf(cs));
  }

  lemma StripOfNothing()
    ensures var (rest, suffix) := StripSuffix(""); Assemble(Fields(rest), suffix) == SplitWords(Fields(""))
  {
    assert FindFlightOf("").None?;
  }

  /** The character-level code splits by words, when the only blank in use is the space. */
  lemma SplitIsSplitWords(raw: string)
    requires Plain(raw)
    ensures SplitCallsign(raw) == SplitWords(Fields(raw))
  {
    TrimKeeps(raw);
    FieldsTrim(raw);
    if TrimSpace(raw) == "" {
      StripOfNothing();
    } else {
      StripIsSplitWords(TrimSpace(raw));
    }
  }

  lemma StripLeavesWords(cs: string)
    requires Trimmed(cs)
    ensures Fields(StripSuffix(cs).0) != []
  {
    var up := ToUpper(cs);
    if HasSuffix(up, " HEAVY") || HasSuffix(up, " SUPER") {
      assert up[|cs| - 6..][0] == ' ';
      LeadingWord(cs, |cs| - 6);
      FieldsTrim(cs[..|cs| - 6]);
    } else if FindFlightOf(cs).Some? {
      FoundIsMatch(cs);
      var a := FindFlightOf(cs).value.start;
      LeadingWord(cs, a);
      FieldsTrim(cs[..a]);
    } else {
      NonEmptyFields(cs);
    }
  }

  /** With any blanks at all: there is a variable part exactly when there is anything, it is one word, and a
      suffix or a prefix comes with one. */
  lemma SuffixHasVariable(raw: string)
    ensures var p := SplitCallsign(raw);
            && (p.suffix != "" ==> p.variable != "") && (p.prefix != "" ==> p.variable != "")
            && (p.variable == "" <==> AllSpaces(raw)) && (p.variable != "" ==> IsWord(p.variable))
  {
    var cs := TrimSpace(raw);
    TrimKeeps(raw);
    TrimSpaceEmptyIff(raw);
    var (rest, suffix) := StripSuffix(cs);
    FieldsAreWords(rest);
    if cs != "" {
      StripLeavesWords(cs);
    }
  }
}

