/** Callsign patterns of virtual airlines, and the in-game suffixes that are looked through. */
module Callsigns {
  import opened GoStrings
  import FlightTime

  const GAME_SUFFIXES: seq<string> := [
    "HEAVY", "SUPER",
    "FLIGHT OF 1", "FLIGHT OF 2", "FLIGHT OF 3", "FLIGHT OF 4", "FLIGHT OF 5",
    "FLIGHT OF 6", "FLIGHT OF 7", "FLIGHT OF 8", "FLIGHT OF 9", "FLIGHT OF 10"
  ]

  /** The suffixes of the game: HEAVY, SUPER, and FLIGHT OF with a number from one to ten. */
  lemma GameSuffixIff(g: string)
    ensures g in GAME_SUFFIXES
       <==> g == "HEAVY" || g == "SUPER" || exists n | 1 <= n <= 10 :: g == "FLIGHT OF " + FlightTime.Digits(n)
  {
    assert FlightTime.Digits(10) == "10";
    forall n | 1 <= n <= 10 ensures "FLIGHT OF " + FlightTime.Digits(n) == GAME_SUFFIXES[n + 1] {
      if n < 10 {
        assert FlightTime.Digits(n) == [('0' as int + n) as char];
      }
    }
    if k: nat :| 2 <= k < |GAME_SUFFIXES| && GAME_SUFFIXES[k] == g {
      assert g == "FLIGHT OF " + FlightTime.Digits(k - 1);
    }
  }

  /** The callsign without the first listed suffix that it ends in. */
  function StripFirst(suffixes: seq<string>, callsign: string): string {
    if suffixes == [] then callsign
    else if HasSuffix(callsign, suffixes[0]) then TrimSpace(callsign[..|callsign| - |suffixes[0]|])
    else StripFirst(suffixes[1..], callsign)
  }

  /** stripGameSuffixes */
  method StripGameSuffixes(callsign: string) returns (trimmed: string)
    ensures trimmed == StripFirst(GAME_SUFFIXES, TrimSpace(callsign))
  {
    trimmed := StripListed(GAME_SUFFIXES, TrimSpace(callsign));
  }

  method StripListed(suffixes: seq<string>, callsign: string) returns (trimmed: string)
    ensures trimmed == StripFirst(suffixes, callsign)
  {
    trimmed := callsign;
    var k := 0;
    while k < |suffixes|
      invariant 0 <= k <= |suffixes|
      invariant trimmed == callsign
      invariant StripFirst(suffixes, callsign) == StripFirst(suffixes[k..], callsign)
    {
      if HasSuffix(trimmed, suffixes[k]) {
        trimmed := TrimSpace(trimmed[..|trimmed| - |suffixes[k]|]);
        return;
      }
      k := k + 1;
    }
  }

  /** The suffixes end in twelve different characters. */
  function LastChar(g: string): char {
    if g == "" then ' ' else g[|g| - 1]
  }

  lemma SuffixesEndDifferently(i: nat, j: nat)
    requires i < j < |GAME_SUFFIXES|
    ensures LastChar(GAME_SUFFIXES[i]) != LastChar(GAME_SUFFIXES[j])
  {
    assert |GAME_SUFFIXES| == 12;
    assert forall k | 2 <= k < 11 :: LastChar(GAME_SUFFIXES[k]) == (('1' as int) + k - 2) as char;
    assert LastChar(GAME_SUFFIXES[0]) == 'Y' && LastChar(GAME_SUFFIXES[1]) == 'R' && LastChar(GAME_SUFFIXES[11]) == '0';
  }

  /** No callsign ends in two game suffixes, so at most one can be removed. */
  lemma OneSuffixAtMost(callsign: string, g: string, h: string)
    requires g in GAME_SUFFIXES && h in GAME_SUFFIXES && HasSuffix(callsign, g) && HasSuffix(callsign, h)
    ensures g == h
  {
    var i :| 0 <= i < |GAME_SUFFIXES| && GAME_SUFFIXES[i] == g;
    var j :| 0 <= j < |GAME_SUFFIXES| && GAME_SUFFIXES[j] == h;
    NoneIsEmpty(i);
    NoneIsEmpty(j);
    assert LastChar(g) == callsign[|callsign| - 1] == LastChar(h);
    if i < j {
      SuffixesEndDifferently(i, j);
    } else if j < i {
      SuffixesEndDifferently(j, i);
    }
  }

  lemma NoneIsEmpty(i: nat)
    requires i < |GAME_SUFFIXES|
    ensures GAME_SUFFIXES[i] != ""
  {
    assert forall k | 0 <= k < 12 :: |GAME_SUFFIXES[k]| >= 5;
  }

  /** What stripping means, without an order: one suffix of the list and the blanks before it are gone, or
      there is none to remove. */
  ghost predicate StrippedOf(suffixes: seq<string>, callsign: string, base: string) {
    || (exists g <- suffixes :: HasSuffix(callsign, g) && base == TrimSpace(callsign[..|callsign| - |g|]))
    || (base == callsign && forall g <- suffixes :: !HasSuffix(callsign, g))
  }

  ghost predicate Stripped(callsign: string, base: string) {
    StrippedOf(GAME_SUFFIXES, callsign, base)
  }

  lemma {:induction false} StripFirstFinds(suffixes: seq<string>, callsign: string)
    ensures StrippedOf(suffixes, callsign, StripFirst(suffixes, callsign))
  {
    if suffixes != [] {
      if HasSuffix(callsign, suffixes[0]) {
        assert suffixes[0] in suffixes;
      } else {
        StripFirstFinds(suffixes[1..], callsign);
        assert suffixes == [suffixes[0]] + suffixes[1..];
      }
    }
  }

  /** At most one of the suffixes can be removed. */
  ghost predicate OneAtMost(suffixes: seq<string>, callsign: string) {
    forall g, h | g in suffixes && h in suffixes && HasSuffix(callsign, g) && HasSuffix(callsign, h) :: g == h
  }

  lemma SameSuffixesStripAlike(a: seq<string>, b: seq<string>, callsign: string, base: string)
    requires forall g :: g in a <==> g in b
    requires OneAtMost(a, callsign) && StrippedOf(a, callsign, base)
    ensures base == StripFirst(b, callsign)
  {
    StripFirstFinds(b, callsign);
  }

  /** The order of the list does not matter: going through the same suffixes in any order, with any
      repetitions, gives the one string that stripping means. */
  lemma StrippingIsOrderFree(suffixes: seq<string>, callsign: string)
    requires forall g :: g in suffixes <==> g in GAME_SUFFIXES
    ensures StripFirst(suffixes, callsign) == StripFirst(GAME_SUFFIXES, callsign)
    ensures Stripped(callsign, StripFirst(suffixes, callsign))
    ensures forall base :: Stripped(callsign, base) ==> base == StripFirst(suffixes, callsign)
  {
    var all := GAME_SUFFIXES;
    GameSuffixesAreOneAtMost(callsign);
    OrderFree(suffixes, all, callsign);
  }

  lemma OrderFree(suffixes: seq<string>, all: seq<string>, callsign: string)
    requires (forall g :: g in suffixes <==> g in all) && OneAtMost(all, callsign)
    ensures StripFirst(suffixes, callsign) == StripFirst(all, callsign)
    ensures StrippedOf(all, callsign, StripFirst(suffixes, callsign))
    ensures forall base :: StrippedOf(all, callsign, base) ==> base == StripFirst(suffixes, callsign)
  {
    StripFirstFinds(all, callsign);
    forall base | StrippedOf(all, callsign, base) ensures base == StripFirst(suffixes, callsign) {
      SameSuffixesStripAlike(all, suffixes, callsign, base);
    }
  }

  lemma GameSuffixesAreOneAtMost(callsign: string)
    ensures OneAtMost(GAME_SUFFIXES, callsign)
  {
    forall g, h | g in GAME_SUFFIXES && h in GAME_SUFFIXES && HasSuffix(callsign, g) && HasSuffix(callsign, h)
      ensures g == h
    {
      OneSuffixAtMost(callsign, g, h);
    }
  }

  function Normal(s: string): string {
    ToUpper(TrimSpace(s))
  }

  lemma NormalShows(s: string)
    ensures Capitals(TrimSpace(s), Normal(s))
  {}

  /** MatchesVAPattern */
  predicate MatchesVAPattern(callsign: string, prefix: string, suffix: string) {
    && (prefix == "" || HasPrefix(Normal(callsign), Normal(prefix)))
    && (suffix == "" || HasSuffix(StripFirst(GAME_SUFFIXES, TrimSpace(Normal(callsign))), Normal(suffix)))
  }

  lemma NormalIsTrimmed(s: string)
    ensures TrimSpace(Normal(s)) == Normal(s)
  {
    TrimIsTrimmed(s);
    TrimmedStays(Normal(s));
  }

  /** A callsign matches a pattern exactly when it starts with the prefix and, once the one game suffix it
      may carry is looked through, ends in the suffix; case and surrounding blanks do not count. */
  lemma MatchesIff(callsign: string, prefix: string, suffix: string)
    ensures MatchesVAPattern(callsign, prefix, suffix)
       <==> && (prefix == "" || HasPrefix(Normal(callsign), Normal(prefix)))
            && (suffix == "" || exists base :: Stripped(Normal(callsign), base) && HasSuffix(base, Normal(suffix)))
  {
    NormalIsTrimmed(callsign);
    StrippingIsOrderFree(GAME_SUFFIXES, Normal(callsign));
  }
}
