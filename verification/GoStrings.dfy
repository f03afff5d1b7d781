/** The string functions of Go's standard library that the modelled code calls, on ASCII text. */
module GoStrings {
  predicate IsSpace(c: char) {
    c == ' ' || c == '\t' || c == '\n' || c == '\r' || c as int == 11 || c as int == 12
  }

  /** The space and the five control characters from tab to carriage return. */
  lemma IsSpaceIff(c: char)
    ensures IsSpace(c) <==> c as int == 32 || 9 <= c as int <= 13
  {}

  function TrimLeft(s: string): (r: string)
    ensures r == "" || !IsSpace(r[0])
    ensures |r| <= |s| && r == s[|s| - |r|..]
    ensures forall k | 0 <= k < |s| - |r| :: IsSpace(s[k])
  {
    if s != "" && IsSpace(s[0]) then TrimLeft(s[1..]) else s
  }

  function TrimRight(s: string): (r: string)
    ensures r == "" || !IsSpace(r[|r| - 1])
    ensures |r| <= |s| && r == s[..|r|]
    ensures forall k | |r| <= k < |s| :: IsSpace(s[k])
  {
    if s != "" && IsSpace(s[|s| - 1]) then TrimRight(s[..|s| - 1]) else s
  }

  function TrimSpace(s: string): string {
    TrimRight(TrimLeft(s))
  }

  function Upper(c: char): char {
    if 'a' <= c <= 'z' then (c as int - 32) as char else c
  }

  function Lower(c: char): char {
    if 'A' <= c <= 'Z' then (c as int + 32) as char else c
  }

  function ToUpper(s: string): (r: string)
    ensures |r| == |s|
    ensures forall k | 0 <= k < |s| :: r[k] == Upper(s[k])
  {
    seq(|s|, k requires 0 <= k < |s| => Upper(s[k]))
  }

  function ToLower(s: string): (r: string)
    ensures |r| == |s|
    ensures forall k | 0 <= k < |s| :: r[k] == Lower(s[k])
  {
    seq(|s|, k requires 0 <= k < |s| => Lower(s[k]))
  }

  /** The same letter, or one its capital; only A to Z and a to z count. */
  predicate SameLetter(c: char, d: char) {
    c == d || ('A' <= c <= 'Z' && d as int == c as int + 32) || ('A' <= d <= 'Z' && c as int == d as int + 32)
  }

  lemma {:induction false} ToLowerAgreesIff(s: string, t: string)
    ensures ToLower(s) == ToLower(t) <==> |s| == |t| && forall k | 0 <= k < |s| :: SameLetter(s[k], t[k])
  {
    forall k | 0 <= k < |s| && k < |t| ensures SameLetter(s[k], t[k]) <==> ToLower(s)[k] == ToLower(t)[k] {}
  }

  /** The text is the name in capitals. */
  ghost predicate Capitals(name: string, text: string) {
    |text| == |name| && forall k | 0 <= k < |name| ::
      text[k] == (if 'a' <= name[k] <= 'z' then (name[k] as int - 32) as char else name[k])
  }

  ghost predicate AllSpaces(s: string) {
    forall k | 0 <= k < |s| :: IsSpace(s[k])
  }

  lemma {:induction false} TrimLeftStops(lead: string, rest: string)
    requires AllSpaces(lead) && (rest == "" || !IsSpace(rest[0]))
    ensures TrimLeft(lead + rest) == rest
  {
    if lead == "" {
      assert lead + rest == rest;
    } else {
      TrimLeftStops(lead[1..], rest);
      assert (lead + rest)[1..] == lead[1..] + rest;
    }
  }

  lemma {:induction false} TrimRightStops(front: string, trail: string)
    requires AllSpaces(trail) && (front == "" || !IsSpace(front[|front| - 1]))
    ensures TrimRight(front + trail) == front
  {
    if trail == "" {
      assert front + trail == front;
    } else {
      TrimRightStops(front, trail[..|trail| - 1]);
      assert (front + trail)[..|front + trail| - 1] == front + trail[..|trail| - 1];
    }
  }

  /** Spaces go from both ends of a text and from nowhere else. */
  lemma TrimSpaceIsMiddle(lead: string, text: string, trail: string)
    requires AllSpaces(lead) && AllSpaces(trail)
    requires text != "" && !IsSpace(text[0]) && !IsSpace(text[|text| - 1])
    ensures TrimSpace(lead + text + trail) == text
  {
    assert lead + text + trail == lead + (text + trail);
    TrimLeftStops(lead, text + trail);
    TrimRightStops(text, trail);
  }

  /** Nothing is left exactly of a text of spaces. */
  lemma {:induction false} TrimSpaceEmptyIff(s: string)
    ensures TrimSpace(s) == "" <==> AllSpaces(s)
  {
    if s != "" && IsSpace(s[0]) {
      TrimSpaceEmptyIff(s[1..]);
      assert forall k | 0 < k < |s| :: s[k] == s[1..][k - 1];
    }
  }

  lemma TrimIsTrimmed(s: string)
    ensures var t := TrimSpace(s); t != "" ==> !IsSpace(t[0]) && !IsSpace(t[|t| - 1])
  {}

  lemma TrimmedStays(t: string)
    requires t != "" ==> !IsSpace(t[0]) && !IsSpace(t[|t| - 1])
    ensures TrimSpace(t) == t
  {}

  predicate HasPrefix(s: string, prefix: string) {
    prefix <= s
  }

  predicate HasSuffix(s: string, suffix: string) {
    |suffix| <= |s| && s[|s| - |suffix|..] == suffix
  }

  lemma HasPrefixIff(s: string, prefix: string)
    ensures HasPrefix(s, prefix) <==> exists rest :: s == prefix + rest
  {
    if HasPrefix(s, prefix) {
      assert s == prefix + s[|prefix|..];
    }
  }

  lemma HasSuffixIff(s: string, suffix: string)
    ensures HasSuffix(s, suffix) <==> exists front :: s == front + suffix
  {
    if HasSuffix(s, suffix) {
      assert s == s[..|s| - |suffix|] + suffix;
    }
  }

  /** strings.Join */
  function Join(parts: seq<string>, sep: string): string {
    if parts == [] then ""
    else if |parts| == 1 then parts[0]
    else Join(parts[..|parts| - 1], sep) + sep + parts[|parts| - 1]
  }

  /** The position of the last `c` in `s`, or |s| when there is none. */
  function LastIndex(s: string, c: char): (k: nat)
    ensures k <= |s|
    ensures k < |s| ==> s[k] == c && c !in s[k + 1..]
    ensures k == |s| ==> c !in s
  {
    if s == "" then 0
    else if s[|s| - 1] == c then |s| - 1
    else
      var k := LastIndex(s[..|s| - 1], c);
      assert s == s[..|s| - 1] + [s[|s| - 1]];
      if k == |s| - 1 then |s| else k
  }

  /** strings.Split for a one-character separator. */
  function Split(s: string, c: char): (parts: seq<string>)
    ensures |parts| >= 1
  {
    var k := LastIndex(s, c);
    if k == |s| then [s] else Split(s[..k], c) + [s[k + 1..]]
  }
}
