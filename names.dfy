/**
 * The file-name helpers of main.py: `get_numeric_id` and `rename_file` both
 * take the first `digits-digits` group that `re.match(r'.*?(\d+-\d+).*', name)`
 * finds. The regular expression is modelled by what it decides: `.*?` tries
 * the start positions from the left, one character at a time and never past a
 * line break (`.` does not match `\n`); at a start position the greedy `\d+`
 * must be followed by `-` and at least one digit, and the greedy second `\d+`
 * fixes where the group ends; the trailing `.*` always matches.
 */
module FileNames {
  import opened Wrappers
  import opened Text

  /** The end of the maximal run of digits that starts at `i`. */
  function DigitRun(s: string, i: nat): (j: nat)
    requires i <= |s|
    ensures i <= j <= |s|
    ensures forall k :: i <= k < j ==> IsDigit(s[k])
    ensures j == |s| || !IsDigit(s[j])
    decreases |s| - i
  {
    if i < |s| && IsDigit(s[i]) then DigitRun(s, i + 1) else i
  }

  /** `(\d+-\d+)` tried at position `p`: the end of the group, or `None`. */
  function MatchAt(s: string, p: nat): (r: Option<nat>)
    requires p <= |s|
    ensures r.Some? ==> p < r.value <= |s|
  {
    var q := DigitRun(s, p);
    if p < q < |s| && s[q] == '-' && DigitRun(s, q + 1) > q + 1 then Some(DigitRun(s, q + 1)) else None
  }

  /** The lazy prefix `.*?`: the first start position from `p` on where the group matches. */
  function Search(s: string, p: nat): (r: Option<(nat, nat)>)
    requires p <= |s|
    ensures r.Some? ==> p <= r.value.0 < r.value.1 <= |s|
    decreases |s| - p
  {
    match MatchAt(s, p)
    case Some(e) => Some((p, e))
    case None => if p < |s| && s[p] != '\n' then Search(s, p + 1) else None
  }

  /** `digits-digits`: the shape of the group. */
  predicate IsId(t: string) {
    exists q :: 0 < q < |t| - 1 && t[q] == '-' && IsDigits(t[..q]) && IsDigits(t[q + 1..])
  }

  /** `match.group(1)` if the pattern matches, else the name itself. */
  function GetNumericId(name: string): string {
    match Search(name, 0)
    case Some((p, e)) => name[p..e]
    case None => name
  }

  /** `rename_file`: the group with a suffix chosen by the name, or the name itself. */
  function RenameFile(name: string): string {
    match Search(name, 0)
    case Some(_) =>
      if Contains(name, "Summary") then GetNumericId(name) + "_Summary.csv"
      else if Contains(name, "NR_RF") then GetNumericId(name) + "_NR_RF.csv"
      else name
    case None => name
  }

  /** There is no line break before position `p`. */
  predicate OneLine(s: string, p: nat)
    requires p <= |s|
  {
    forall k :: 0 <= k < p ==> s[k] != '\n'
  }

  /** A match at `p` spans a `digits-digits` group that stops before any further digit. */
  lemma MatchAtShape(s: string, p: nat)
    requires p <= |s| && MatchAt(s, p).Some?
    ensures p < MatchAt(s, p).value <= |s|
    ensures IsId(s[p..MatchAt(s, p).value])
    ensures MatchAt(s, p).value == |s| || !IsDigit(s[MatchAt(s, p).value])
  {
    var q := DigitRun(s, p);
    var e := DigitRun(s, q + 1);
    assert MatchAt(s, p) == Some(e);
    var t := s[p..e];
    assert t[q - p] == '-';
    assert t[..q - p] == s[p..q];
    assert t[q - p + 1..] == s[q + 1..e];
  }

  /**
   * Any `digits-digits` group starting at `p` is found there: the first digit
   * run stops at its `-`, and a digit follows. When the group is not followed
   * by a further digit, the match ends exactly where it does.
   */
  lemma MatchAtComplete(s: string, p: nat, e: nat)
    requires p < e <= |s| && IsId(s[p..e])
    ensures MatchAt(s, p).Some?
    ensures e == |s| || !IsDigit(s[e]) ==> MatchAt(s, p) == Some(e)
  {
    var d := IdDash(s, p, e);
    RunIs(s, p, d);
    var j := DigitRun(s, d + 1);
    assert j > d + 1 by {
      assert IsDigit(s[d + 1]);
    }
    assert MatchAt(s, p) == Some(j);
    if e == |s| || !IsDigit(s[e]) {
      RunIs(s, d + 1, e);
    }
  }

  /** The `-` of a `digits-digits` text inside `s`, with digits on both sides of it. */
  lemma IdDash(s: string, p: nat, e: nat) returns (d: nat)
    requires p < e <= |s| && IsId(s[p..e])
    ensures p < d < e - 1 && s[d] == '-'
    ensures forall k :: p <= k < d ==> IsDigit(s[k])
    ensures forall k :: d < k < e ==> IsDigit(s[k])
  {
    var t := s[p..e];
    var q :| 0 < q < |t| - 1 && t[q] == '-' && IsDigits(t[..q]) && IsDigits(t[q + 1..]);
    d := p + q;
    forall k | p <= k < d ensures IsDigit(s[k]) {
      assert IsDigit(t[..q][k - p]);
    }
    forall k | d < k < e ensures IsDigit(s[k]) {
      assert IsDigit(t[q + 1..][k - d - 1]);
    }
  }

  /** Where the group does not match, no `digits-digits` text starts. */
  lemma NoMatchNoId(s: string, p: nat)
    requires p <= |s| && MatchAt(s, p).None?
    ensures forall e :: p < e <= |s| ==> !IsId(s[p..e])
  {
    MatchAtIff(s, p);
  }

  /** The group matches at `p` exactly when some `digits-digits` text starts there. */
  lemma MatchAtIff(s: string, p: nat)
    requires p <= |s|
    ensures MatchAt(s, p).Some? <==> exists e :: p < e <= |s| && IsId(s[p..e])
  {
    if MatchAt(s, p).Some? {
      MatchAtShape(s, p);
    }
    if exists e :: p < e <= |s| && IsId(s[p..e]) {
      var e :| p < e <= |s| && IsId(s[p..e]);
      MatchAtComplete(s, p, e);
    }
  }

  /**
   * `Search` from `p` finds the leftmost start position at or after `p` that
   * is reachable without crossing a line break, and nothing when there is
   * none.
   */
  lemma SearchLeftmost(s: string, p: nat)
    requires p <= |s|
    ensures Search(s, p).Some? ==>
              var (b, e) := Search(s, p).value;
              p <= b <= |s| && MatchAt(s, b) == Some(e)
              && (forall k :: p <= k < b ==> s[k] != '\n' && MatchAt(s, k).None?)
    ensures Search(s, p).None? ==>
              forall b :: p <= b <= |s| && (forall k :: p <= k < b ==> s[k] != '\n') ==> MatchAt(s, b).None?
  {
    if Search(s, p).Some? {
      SearchFound(s, p);
    } else {
      SearchNone(s, p);
    }
  }

  lemma {:induction false} SearchFound(s: string, p: nat)
    requires p <= |s| && Search(s, p).Some?
    ensures var (b, e) := Search(s, p).value;
            MatchAt(s, b) == Some(e) && forall k :: p <= k < b ==> s[k] != '\n' && MatchAt(s, k).None?
    decreases |s| - p
  {
    if MatchAt(s, p).None? {
      SearchFound(s, p + 1);
    }
  }

  lemma {:induction false} SearchNone(s: string, p: nat)
    requires p <= |s| && Search(s, p).None?
    ensures forall b :: p <= b <= |s| && (forall k :: p <= k < b ==> s[k] != '\n') ==> MatchAt(s, b).None?
    decreases |s| - p
  {
    if p < |s| && s[p] != '\n' {
      SearchNone(s, p + 1);
      forall b | p < b <= |s| && (forall k :: p <= k < b ==> s[k] != '\n') ensures MatchAt(s, b).None? {
        assert forall k :: p + 1 <= k < b ==> s[k] != '\n';
      }
    }
  }

  /**
   * `get_numeric_id`: the group of the leftmost match, which has the shape
   * `digits-digits` and is not followed by a digit, with no `digits-digits`
   * text starting earlier on the first line; or the name unchanged when no
   * `digits-digits` text starts on the first line.
   */
  lemma NumericIdSpec(name: string)
    ensures Search(name, 0).Some? ==>
              var (b, e) := Search(name, 0).value;
              GetNumericId(name) == name[b..e] && IsId(name[b..e]) && OneLine(name, b)
              && (e == |name| || !IsDigit(name[e]))
              && (forall k :: 0 <= k < b ==> MatchAt(name, k).None?)
              && forall k, j :: 0 <= k < b && k < j <= |name| ==> !IsId(name[k..j])
    ensures Search(name, 0).None? ==>
              GetNumericId(name) == name
              && (forall b :: 0 <= b <= |name| && OneLine(name, b) ==> MatchAt(name, b).None?)
              && forall b, e :: 0 <= b < e <= |name| && OneLine(name, b) ==> !IsId(name[b..e])
  {
    SearchLeftmost(name, 0);
    if Search(name, 0).Some? {
      var (b, e) := Search(name, 0).value;
      MatchAtShape(name, b);
      forall k, j | 0 <= k < b && k < j <= |name| ensures !IsId(name[k..j]) {
        NoMatchNoId(name, k);
      }
    } else {
      forall b, e | 0 <= b < e <= |name| && OneLine(name, b) ensures !IsId(name[b..e]) {
        NoMatchNoId(name, b);
      }
    }
  }

  /** A name without a `-` has no numeric id and keeps its name. */
  lemma NoDashNoId(name: string)
    requires forall k :: 0 <= k < |name| ==> name[k] != '-'
    ensures GetNumericId(name) == name && RenameFile(name) == name
  {
    NumericIdSpec(name);
    if Search(name, 0).Some? {
      assert false;
    }
  }

  /** A digit run is determined by where it starts: any span of digits ending at a non-digit is it. */
  lemma RunIs(s: string, i: nat, j: nat)
    requires i <= j <= |s|
    requires forall k :: i <= k < j ==> IsDigit(s[k])
    requires j == |s| || !IsDigit(s[j])
    ensures DigitRun(s, i) == j
  {
    var r := DigitRun(s, i);
    if r < j {
      assert false;
    } else if r > j {
      assert false;
    }
  }

  /** A name that starts with an id not followed by a digit has that id as its numeric id. */
  lemma IdFirst(id: string, rest: string)
    requires IsId(id)
    requires |rest| == 0 || !IsDigit(rest[0])
    ensures Search(id + rest, 0) == Some((0, |id|))
    ensures GetNumericId(id + rest) == id
  {
    var t := id + rest;
    var q :| 0 < q < |id| - 1 && id[q] == '-' && IsDigits(id[..q]) && IsDigits(id[q + 1..]);
    assert forall k :: 0 <= k < q ==> t[k] == id[..q][k];
    RunIs(t, 0, q);
    assert forall k :: q + 1 <= k < |id| ==> t[k] == id[q + 1..][k - q - 1];
    if |rest| > 0 {
      assert t[|id|] == rest[0];
    }
    RunIs(t, q + 1, |id|);
    assert MatchAt(t, 0) == Some(|id|);
    assert t[..|id|] == id;
  }

  /** Taking the numeric id of a numeric id changes nothing. */
  lemma NumericIdIdempotent(name: string)
    ensures GetNumericId(GetNumericId(name)) == GetNumericId(name)
  {
    NumericIdSpec(name);
    if Search(name, 0).Some? {
      var id := GetNumericId(name);
      IdFirst(id, []);
      assert id + [] == id;
    }
  }

  /** An id holds digits and one `-` and nothing else, so any other character is absent. */
  lemma IdHasNoLetter(id: string, c: char)
    requires IsId(id) && !IsDigit(c)
    ensures c != '-' ==> forall k :: 0 <= k < |id| ==> id[k] != c
    ensures c == '-' ==> exists k :: 0 <= k < |id| && id[k] == c
  {
    var q :| 0 < q < |id| - 1 && id[q] == '-' && IsDigits(id[..q]) && IsDigits(id[q + 1..]);
    assert id[q] == '-';
    forall k | 0 <= k < |id| && c != '-' ensures id[k] != c {
      if k < q {
        assert id[k] == id[..q][k];
      } else if k > q {
        assert id[k] == id[q + 1..][k - q - 1];
      }
    }
  }

  /** A text without the first character of `sub` does not contain `sub`. */
  lemma Absent(r: string, sub: string)
    requires |sub| > 0 && forall k :: 0 <= k < |r| ==> r[k] != sub[0]
    ensures !Contains(r, sub)
  {
    assert forall i :: OccursAt(r, sub, i) ==> r[i..i + |sub|][0] == r[i];
  }

  /** `<id>_Summary.csv` is renamed to itself. */
  lemma RenameSummaryName(id: string)
    requires IsId(id)
    ensures RenameFile(id + "_Summary.csv") == id + "_Summary.csv"
  {
    var r := id + "_Summary.csv";
    IdFirst(id, "_Summary.csv");
    assert OccursAt(r, "Summary", |id| + 1) by {
      assert r[|id|..] == "_Summary.csv";
      assert r[|id| + 1..|id| + 8] == r[|id|..][1..8];
      assert r[|id| + 1..|id| + 8] == "Summary";
    }
  }

  /** `<id>_NR_RF.csv` is renamed to itself: it holds no `Summary`, since no `S`. */
  lemma RenameNrRfName(id: string)
    requires IsId(id)
    ensures RenameFile(id + "_NR_RF.csv") == id + "_NR_RF.csv"
  {
    var r := id + "_NR_RF.csv";
    IdFirst(id, "_NR_RF.csv");
    assert OccursAt(r, "NR_RF", |id| + 1) by {
      assert r[|id|..] == "_NR_RF.csv";
      assert r[|id| + 1..|id| + 6] == r[|id|..][1..6];
      assert r[|id| + 1..|id| + 6] == "NR_RF";
    }
    IdHasNoLetter(id, 'S');
    forall k | 0 <= k < |r| ensures r[k] != "Summary"[0] {
      if k >= |id| {
        assert r[k] == "_NR_RF.csv"[k - |id|];
      } else {
        assert r[k] == id[k];
      }
    }
    Absent(r, "Summary");
  }

  /**
   * Renaming a renamed file changes nothing: `<id>_Summary.csv` and
   * `<id>_NR_RF.csv` match again on the same id and keep their suffix.
   */
  lemma RenameIdempotent(name: string)
    ensures RenameFile(RenameFile(name)) == RenameFile(name)
  {
    if Search(name, 0).Some? {
      NumericIdSpec(name);
      if Contains(name, "Summary") {
        RenameSummaryName(GetNumericId(name));
      } else if Contains(name, "NR_RF") {
        RenameNrRfName(GetNumericId(name));
      }
    }
  }
}
