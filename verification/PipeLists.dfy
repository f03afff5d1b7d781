/** Lists of ids joined with '|', as the flight indexes store them. */
module PipeLists {
  import opened GoStrings

  const PIPE: string := "|"

  lemma {:induction false} SplitPartsAreClean(s: string, c: char)
    ensures forall part <- Split(s, c) :: c !in part
  {
    var k := LastIndex(s, c);
    if k < |s| {
      SplitPartsAreClean(s[..k], c);
    }
  }

  lemma {:induction false} LastIndexIs(s: string, c: char, k: nat)
    requires k < |s| && s[k] == c && c !in s[k + 1..]
    ensures LastIndex(s, c) == k
  {
    var n := |s| - 1;
    if k < n {
      assert s[n] == s[k + 1..][n - k - 1];
      assert s[..n][k + 1..] == s[k + 1..][..n - k - 1];
      LastIndexIs(s[..n], c, k);
    }
  }

  lemma {:induction false} SplitUndoesJoin(ids: seq<string>)
    requires ids != [] && forall id <- ids :: '|' !in id
    ensures Split(Join(ids, PIPE), '|') == ids
  {
    var n := |ids| - 1;
    if n > 0 {
      var front, last := Join(ids[..n], PIPE), ids[n];
      SplitUndoesJoin(ids[..n]);
      assert Join(ids, PIPE) == front + ['|'] + last;
      var s := front + ['|'] + last;
      assert s[..|front|] == front && s[|front| + 1..] == last && last in ids;
      LastIndexIs(s, '|', |front|);
    } else {
      assert ids == [ids[0]] && ids[0] in ids && Join(ids, PIPE) == ids[0];
    }
  }

  /** Splitting gives back a joined list exactly when no id contains the separator. */
  lemma SplitJoinIff(ids: seq<string>)
    requires ids != []
    ensures Split(Join(ids, PIPE), '|') == ids <==> forall id <- ids :: '|' !in id
  {
    if forall id <- ids :: '|' !in id {
      SplitUndoesJoin(ids);
    } else {
      SplitPartsAreClean(Join(ids, PIPE), '|');
    }
  }

  lemma {:induction false} JoinIsNotEmpty(ids: seq<string>, sep: string)
    requires ids != [] && forall id <- ids :: id != ""
    ensures Join(ids, sep) != ""
  {
    assert ids[|ids| - 1] in ids;
  }
}
