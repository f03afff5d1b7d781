/** Rendering a split callsign and splitting it again. */
module CallsignRoundTrip {
  import opened GoStrings
  import opened CallsignSplit

  predicate AllWords(t: seq<string>) {
    forall i | 0 <= i < |t| :: IsWord(t[i])
  }

  /** Prefix, variable part and suffix on one line, without the empty ones. */
  function Render(p: Parts): string {
    var name := if p.prefix == "" then p.variable else p.prefix + " " + p.variable;
    if p.suffix == "" then name else name + " " + p.suffix
  }

  /** The words of a suffix in standard spelling. */
  predicate StandardTail(tail: seq<string>) {
    || tail == [] || tail == ["Heavy"] || tail == ["Super"]
    || (|tail| == 3 && tail[0] == "Flight" && tail[1] == "of" && AllDigits(tail[2]))
  }

  lemma JoinLast(t: seq<string>, w: string)
    requires t != []
    ensures Join(t + [w], " ") == Join(t, " ") + [' '] + w
  {
    assert (t + [w])[..|t|] == t;
  }

  lemma JoinOneMore(a: seq<string>, b: seq<string>, w: string)
    requires a != [] && b != [] && Join(a + b, " ") == Join(a, " ") + [' '] + Join(b, " ")
    ensures Join(a + (b + [w]), " ") == Join(a, " ") + [' '] + Join(b + [w], " ")
  {
    assert a + (b + [w]) == (a + b) + [w];
    JoinLast(a + b, w);
    JoinLast(b, w);
  }

  lemma {:induction false} JoinAppend(a: seq<string>, b: seq<string>)
    requires a != [] && b != []
    ensures Join(a + b, " ") == Join(a, " ") + [' '] + Join(b, " ")
  {
    var n := |b| - 1;
    if n == 0 {
      assert b == [b[0]];
      JoinLast(a, b[0]);
    } else {
      JoinAppend(a, b[..n]);
      assert b == b[..n] + [b[n]];
      JoinOneMore(a, b[..n], b[n]);
    }
  }

  lemma FieldsOfWord(w: string)
    requires IsWord(w)
    ensures Fields(w) == [w] && Plain(w)
  {
    assert w[0..] == w && w[..0] == "";
    FieldsOfLast(w, 0);
  }

  /** `s` has the words `t`. */
  predicate Spells(s: string, t: seq<string>) {
    Fields(s) == t && Plain(s) && (t != [] ==> s != "")
  }

  lemma {:induction false} FieldsOfJoin(t: seq<string>)
    requires AllWords(t)
    ensures Spells(Join(t, " "), t)
  {
    var n := |t| - 1;
    if n == 0 {
      FieldsOfWord(t[0]);
      assert t == [t[0]];
    } else if n > 0 {
      FieldsOfJoin(t[..n]);
      SpellsOneMore(Join(t[..n], " "), t, n);
    }
  }

  lemma SpellsOneMore(front: string, t: seq<string>, n: nat)
    requires n + 1 == |t| && Spells(front, t[..n]) && IsWord(t[n])
    ensures Spells(front + " " + t[n], t)
  {
    FieldsOfSpaced(front, t[n]);
    assert t[..n] + [t[n]] == t;
  }

  lemma FieldsOfSpaced(front: string, w: string)
    requires IsWord(w) && Plain(front)
    ensures Fields(front + " " + w) == Fields(front) + [w] && Plain(front + " " + w)
  {
    var s, k := front + " " + w, |front| + 1;
    assert s[k..] == w && s[..k][..|front|] == front;
    FieldsOfLast(s, k);
  }

  lemma JoinThree(a: string, b: string, c: string)
    ensures Join([a, b, c], " ") == a + [' '] + b + [' '] + c
  {
    assert [a] + [b] == [a, b] && [a, b] + [c] == [a, b, c];
    JoinLast([a], b);
    JoinLast([a, b], c);
  }

  lemma FlightOfIsJoin(tail: seq<string>)
    requires |tail| == 3 && tail[0] == "Flight" && tail[1] == "of"
    ensures Join(tail, " ") == "Flight of " + tail[2]
  {
    JoinThree(tail[0], tail[1], tail[2]);
    assert tail == [tail[0], tail[1], tail[2]];
    assert "Flight" + [' '] + "of" + [' '] == "Flight of ";
  }

  lemma WordOf(w: string)
    requires w != "" && forall i | 0 <= i < |w| :: !IsSpace(w[i])
    ensures IsWord(w)
  {}

  lemma TailWords(tail: seq<string>)
    requires StandardTail(tail)
    ensures AllWords(tail)
  {
    WordOf("Heavy");
    WordOf("Super");
    WordOf("Flight");
    WordOf("of");
  }

  lemma NameIsJoin(t: seq<string>, suffix: string)
    requires t != [] && AllWords(t)
    ensures Render(Assemble(t, suffix)) == if suffix == "" then Join(t, " ") else Join(t, " ") + " " + suffix
  {
    FieldsOfJoin(t[..|t| - 1]);
  }

  lemma RenderIsJoin(t: seq<string>, tail: seq<string>)
    requires t != [] && AllWords(t) && AllWords(tail)
    ensures Render(Assemble(t, Join(tail, " "))) == Join(t + tail, " ")
  {
    NameIsJoin(t, Join(tail, " "));
    if tail == [] {
      assert t + tail == t;
    } else {
      FieldsOfJoin(tail);
      JoinAppend(t, tail);
    }
  }

  lemma DigitsAreNoLetters(d: string, word: string)
    requires AllDigits(d) && word != "" && 'A' <= word[0]
    ensures ToUpper(d) != word
  {
    assert IsDigit(d[0]);
    assert ToUpper(d)[0] == d[0];
  }

  /** A standard suffix after at least one word is taken off again. */
  lemma SplitTakesTail(t: seq<string>, tail: seq<string>)
    requires t != [] && StandardTail(tail) && tail != []
    ensures SplitWords(t + tail) == Assemble(t, Join(tail, " "))
  {
    assert (t + tail)[..|t|] == t;
    if |tail| == 3 {
      DigitsAreNoLetters(tail[2], "HEAVY");
      DigitsAreNoLetters(tail[2], "SUPER");
      FlightOfIsJoin(tail);
    }
  }

  lemma SplitOfRender(t: seq<string>, tail: seq<string>)
    requires t != [] && AllWords(t) && AllWords(tail)
    ensures SplitCallsign(Render(Assemble(t, Join(tail, " ")))) == SplitWords(t + tail)
  {
    RenderIsJoin(t, tail);
    FieldsOfJoin(t + tail);
    SplitIsSplitWords(Join(t + tail, " "));
  }

  lemma NoTailIff(t: seq<string>)
    ensures SplitWords(t) == Assemble(t, "") <==> !EndsInSuffix(t)
  {}

  /** Splitting a rendering gives the parts back, unless there is no suffix and the words themselves end like one. */
  lemma SplitUndoesRenderIff(t: seq<string>, tail: seq<string>)
    requires t != [] && AllWords(t) && StandardTail(tail)
    ensures var p := Assemble(t, Join(tail, " "));
            SplitCallsign(Render(p)) == p <==> tail != [] || !EndsInSuffix(t)
  {
    TailWords(tail);
    SplitOfRender(t, tail);
    if tail != [] {
      SplitTakesTail(t, tail);
    } else {
      NoTailIff(t);
      assert t + tail == t;
    }
  }

  predicate SameUpToCase(a: seq<string>, b: seq<string>) {
    |a| == |b| && forall i | 0 <= i < |a| :: ToUpper(a[i]) == ToUpper(b[i])
  }

  lemma UpperSpaced(a: string, v: string, b: string, w: string)
    requires ToUpper(a) == ToUpper(b) && ToUpper(v) == ToUpper(w)
    ensures ToUpper(a + " " + v) == ToUpper(b + " " + w)
  {
    var x, y := a + " " + v, b + " " + w;
    forall k | 0 <= k < |x| ensures Upper(x[k]) == Upper(y[k]) {
      if k < |a| {
        assert ToUpper(a)[k] == ToUpper(b)[k];
      } else if k > |a| {
        assert ToUpper(v)[k - |a| - 1] == ToUpper(w)[k - |a| - 1];
      }
    }
  }

  lemma {:induction false} JoinUpToCase(a: seq<string>, b: seq<string>)
    requires SameUpToCase(a, b)
    ensures ToUpper(Join(a, " ")) == ToUpper(Join(b, " "))
  {
    var n := |a| - 1;
    if n > 0 {
      JoinUpToCase(a[..n], b[..n]);
      UpperSpaced(Join(a[..n], " "), a[n], Join(b[..n], " "), b[n]);
    }
  }

  /** A split is made of the callsign's own words, only the suffix respelled. */
  lemma SplitKeepsWords(t: seq<string>) returns (k: nat, tail: seq<string>)
    requires t != [] && AllWords(t)
    ensures 0 < k <= |t| && StandardTail(tail) && SameUpToCase(tail, t[k..])
    ensures SplitWords(t) == Assemble(t[..k], Join(tail, " ")) && (tail == [] ==> !EndsInSuffix(t))
  {
    var n := |t|;
    if EndsInWord(t, "HEAVY") {
      k, tail := n - 1, ["Heavy"];
    } else if EndsInWord(t, "SUPER") {
      k, tail := n - 1, ["Super"];
    } else if EndsInFlightOf(t) {
      k, tail := n - 3, ["Flight", "of", t[n - 1]];
      FlightOfIsJoin(tail);
    } else {
      k, tail := n, [];
      assert t[..n] == t;
    }
  }

  /** `p` puts the words `t` on one line, the last of them, after the first `k`, respelled as `tail`. */
  predicate Respells(p: Parts, t: seq<string>, k: nat, tail: seq<string>) {
    && k <= |t| && StandardTail(tail) && SameUpToCase(tail, t[k..])
    && p == Assemble(t[..k], Join(tail, " ")) && Render(p) == Join(t[..k] + tail, " ")
  }

  lemma WordsRespelled(t: seq<string>) returns (k: nat, tail: seq<string>)
    requires AllWords(t)
    ensures Respells(SplitWords(t), t, k, tail)
    ensures t != [] ==> k > 0 && (tail == [] ==> !EndsInSuffix(t[..k]))
  {
    if t == [] {
      k, tail := 0, [];
    } else {
      k, tail := SplitKeepsWords(t);
      TailWords(tail);
      RenderIsJoin(t[..k], tail);
      if tail == [] {
        assert t[..k] == t;
      }
    }
  }

  lemma NoWordsNoParts(t: seq<string>)
    requires t == []
    ensures SplitWords(t) == Parts("", "", "")
  {}

  lemma SplitOfNothing()
    ensures SplitCallsign("") == Parts("", "", "")
  {
    SplitIsSplitWords("");
    NoWordsNoParts(Fields(""));
  }

  lemma RespelledSplitsBack(p: Parts, t: seq<string>, k: nat, tail: seq<string>)
    requires AllWords(t) && Respells(p, t, k, tail)
    requires if t == [] then p == Parts("", "", "") else k > 0 && (tail == [] ==> !EndsInSuffix(t[..k]))
    ensures SplitCallsign(Render(p)) == p
  {
    if t == [] {
      SplitOfNothing();
    } else {
      SplitUndoesRenderIff(t[..k], tail);
    }
  }

  lemma RespelledUpToCase(p: Parts, t: seq<string>, k: nat, tail: seq<string>)
    requires Respells(p, t, k, tail)
    ensures ToUpper(Render(p)) == ToUpper(Join(t, " "))
  {
    assert t == t[..k] + t[k..];
    JoinUpToCase(t[..k] + tail, t);
  }

  /** The variable part is the last word of `t` and the prefix the words before it. */
  ghost predicate Divides(p: Parts, t: seq<string>) {
    t != [] && p.variable == t[|t| - 1] && Fields(p.prefix) == t[..|t| - 1] && p.prefix == Join(t[..|t| - 1], " ")
  }

  lemma AssembleDivides(t: seq<string>, suffix: string)
    requires t != [] && AllWords(t)
    ensures Divides(Assemble(t, suffix), t)
  {
    FieldsOfJoin(t[..|t| - 1]);
  }

  /** How many words come before the suffix: all but HEAVY or SUPER as one of several words, or but FLIGHT OF and digits
      after another word. */
  function NameLength(t: seq<string>): nat {
    var n := |t|;
    if n >= 2 && ToUpper(t[n - 1]) in {"HEAVY", "SUPER"} then n - 1
    else if n >= 4 && ToUpper(t[n - 3]) == "FLIGHT" && ToUpper(t[n - 2]) == "OF" && AllDigits(t[n - 1]) then n - 3
    else n
  }

  /** The standard spelling of the words after the first `k`. */
  ghost predicate Suffixed(suffix: string, t: seq<string>, k: nat) {
    || (k == |t| && suffix == "")
    || (k == |t| - 1 && suffix == "Heavy" && ToUpper(t[k]) == "HEAVY")
    || (k == |t| - 1 && suffix == "Super" && ToUpper(t[k]) == "SUPER")
    || (k == |t| - 3 && suffix == "Flight of " + t[k + 2])
  }

  lemma SplitWordsMeans(t: seq<string>, p: Parts, k: nat)
    requires t != [] && AllWords(t) && p == SplitWords(t) && k == NameLength(t)
    ensures 0 < k <= |t| && Divides(p, t[..k]) && Suffixed(p.suffix, t, k)
  {
    assert t[..|t|] == t;
    AssembleDivides(t[..k], p.suffix);
  }

  /** What the three parts are, word for word: the last word before the suffix, the words before that one, and the
      standard spelling of what follows. */
  lemma SplitMeans(raw: string)
    requires Plain(raw) && Fields(raw) != []
    ensures var t, p := Fields(raw), SplitCallsign(raw);
            && 0 < NameLength(t) <= |t| && Divides(p, t[..NameLength(t)]) && Suffixed(p.suffix, t, NameLength(t))
  {
    SplitIsSplitWords(raw);
    FieldsAreWords(raw);
    SplitWordsMeans(Fields(raw), SplitCallsign(raw), NameLength(Fields(raw)));
  }

  /** With any blanks at all: prefix and variable part are the words left when the suffix is off. */
  lemma SplitDividesRest(raw: string)
    requires !AllSpaces(raw)
    ensures Divides(SplitCallsign(raw), Fields(StripSuffix(TrimSpace(raw)).0))
  {
    TrimSpaceEmptyIff(raw);
    TrimKeeps(raw);
    var rest := StripSuffix(TrimSpace(raw)).0;
    StripLeavesWords(TrimSpace(raw));
    FieldsAreWords(rest);
    AssembleDivides(Fields(rest), StripSuffix(TrimSpace(raw)).1);
  }

  lemma RespelledDivides(p: Parts, t: seq<string>, k: nat, tail: seq<string>)
    requires AllWords(t) && Respells(p, t, k, tail)
    requires t == [] ==> p == Parts("", "", "")
    requires t != [] ==> k > 0
    ensures t == [] <==> p.variable == ""
    ensures t != [] ==> (
      && p.variable == t[k - 1] && p.prefix == Join(t[..k - 1], " ") && Fields(p.prefix) == t[..k - 1])
  {
    if t != [] {
      AssembleDivides(t[..k], Join(tail, " "));
      assert t[..k][..k - 1] == t[..k - 1];
    }
  }

  /** Rendering a split gives the callsign single-spaced, word for word, but for the spelling of its suffix;
      and splitting that again changes nothing. Of the words before the suffix the last is the variable part
      and the others are the prefix. */
  lemma RenderOfSplit(raw: string) returns (k: nat, tail: seq<string>)
    requires Plain(raw)
    ensures var p := SplitCallsign(raw);
            && Respells(p, Fields(raw), k, tail) && SplitCallsign(Render(p)) == p
            && ToUpper(Render(p)) == ToUpper(Join(Fields(raw), " "))
            && (Fields(raw) == [] <==> p.variable == "")
            && (Fields(raw) != [] ==>
                  && k > 0 && p.variable == Fields(raw)[k - 1]
                  && p.prefix == Join(Fields(raw)[..k - 1], " ") && Fields(p.prefix) == Fields(raw)[..k - 1])
  {
    SplitIsSplitWords(raw);
    FieldsAreWords(raw);
    k, tail := WordsRespelled(Fields(raw));
    RespelledSplitsBack(SplitWords(Fields(raw)), Fields(raw), k, tail);
    RespelledUpToCase(SplitWords(Fields(raw)), Fields(raw), k, tail);
    RespelledDivides(SplitWords(Fields(raw)), Fields(raw), k, tail);
  }
}
