/** The watchlist kept in local storage: an ordered list of holdings, most
    recently added first, with at most one record per fund code.  The list
    is the state; each mutator maps the stored list to the list it writes
    back.  Reading and writing the storage key and the JSON encoding are
    not modelled. */
module Watchlist {
  import opened Optional
  import opened Seqs

  /** One watched fund with the user's position in it. */
  datatype FundHolding = FundHolding(
    code: string,
    name: string,
    shares: real,
    costPrice: real,
    addTime: int)

  type Store = seq<FundHolding>

  /** The store's invariant: no fund code appears twice. */
  predicate UniqueCodes(s: Store) {
    forall i, j :: 0 <= i < j < |s| ==> s[i].code != s[j].code
  }

  /** `funds.some(f => f.code === code)` (isFundAdded). */
  predicate IsFundAdded(s: Store, code: string)
    ensures IsFundAdded(s, code) <==> exists i :: 0 <= i < |s| && s[i].code == code
    decreases |s|
  {
    |s| > 0 && (s[0].code == code || IsFundAdded(s[1..], code))
  }

  /** `funds.findIndex(f => f.code === code)`, with -1 as `None`. */
  function FindIndex(s: Store, code: string): (r: Option<nat>)
    ensures r.None? <==> !IsFundAdded(s, code)
    ensures r.Some? ==> r.value < |s| && s[r.value].code == code
    ensures r.Some? ==> forall j :: 0 <= j < r.value ==> s[j].code != code
    decreases |s|
  {
    if |s| == 0 then None
    else if s[0].code == code then Some(0)
    else match FindIndex(s[1..], code)
      case None => None
      case Some(i) => Some(i + 1)
  }

  /** `funds.find(f => f.code === code)` (getFundHolding). */
  function GetFundHolding(s: Store, code: string): (r: Option<FundHolding>)
    ensures r.Some? <==> IsFundAdded(s, code)
    ensures r.Some? ==> r.value in s && r.value.code == code
    ensures UniqueCodes(s) ==> forall h :: h in s && h.code == code ==> r == Some(h)
    ensures r.Some? ==> exists i :: 0 <= i < |s| && r.value == s[i] && forall j :: 0 <= j < i ==> s[j].code != code
  {
    match FindIndex(s, code)
    case None => None
    case Some(i) => Some(s[i])
  }

  /** addMyFund: refuse a code already present, otherwise put a new record
      in front.  Missing shares and cost price default to 0; `now` is the
      clock reading stored as the add time.  Returns whether the record was
      added, and the list written back. */
  function AddMyFund(s: Store, code: string, name: string, shares: Option<real>,
                     costPrice: Option<real>, now: int): (r: (bool, Store))
    ensures r.0 <==> !IsFundAdded(s, code)
    ensures !r.0 ==> r.1 == s
    ensures r.0 ==> |r.1| == |s| + 1 && r.1[1..] == s
    ensures r.0 ==> r.1[0] == FundHolding(code, name, shares.GetOr(0.0), costPrice.GetOr(0.0), now)
    ensures IsFundAdded(r.1, code)
    ensures UniqueCodes(s) ==> UniqueCodes(r.1)
  {
    if IsFundAdded(s, code) then (false, s)
    else
      var h := FundHolding(code, name, shares.GetOr(0.0), costPrice.GetOr(0.0), now);
      assert ([h] + s)[1..] == s;
      (true, [h] + s)
  }

  /** updateFundHolding: overwrite `shares` and `costPrice` of the first
      record with this code; a code not in the list leaves it unchanged. */
  function UpdateFundHolding(s: Store, code: string, shares: real, costPrice: real): (r: Store)
    ensures |r| == |s|
    ensures !IsFundAdded(s, code) ==> r == s
    ensures forall j :: 0 <= j < |s| ==>
      r[j].code == s[j].code && r[j].name == s[j].name && r[j].addTime == s[j].addTime
    ensures forall j :: 0 <= j < |s| && r[j] != s[j] ==> FindIndex(s, code) == Some(j)
    ensures forall j :: 0 <= j < |s| && FindIndex(s, code) == Some(j) ==>
      r[j].shares == shares && r[j].costPrice == costPrice
    ensures UniqueCodes(s) ==> UniqueCodes(r)
  {
    match FindIndex(s, code)
    case None => s
    case Some(i) => s[i := s[i].(shares := shares, costPrice := costPrice)]
  }

  /** removeMyFund: `funds.filter(f => f.code !== code)`. */
  function RemoveMyFund(s: Store, code: string): (r: Store)
    ensures !IsFundAdded(r, code)
    ensures forall h :: h in r <==> h in s && h.code != code
    ensures forall h :: multiset(r)[h] == if h.code != code then multiset(s)[h] else 0
    ensures IsSubsequence(r, s)
    ensures UniqueCodes(s) ==> UniqueCodes(r)
  {
    var r := Filter(s, (h: FundHolding) => h.code != code);
    assert forall h :: h in s && h.code != code ==> h in r by {
      forall h | h in s && h.code != code ensures h in r {
        var i :| 0 <= i < |s| && s[i] == h;
      }
    }
    assert UniqueCodes(s) ==> UniqueCodes(r) by {
      if UniqueCodes(s) {
        SubsequenceKeepsUnique(r, s);
      }
    }
    r
  }

  /** Deleting records cannot create a duplicate code. */
  lemma {:induction false} SubsequenceKeepsUnique(a: Store, b: Store)
    requires IsSubsequence(a, b)
    requires UniqueCodes(b)
    ensures UniqueCodes(a)
    decreases |b|
  {
    if |a| > 0 {
      assert UniqueCodes(b[1..]) by {
        forall i, j | 0 <= i < j < |b[1..]| ensures b[1..][i].code != b[1..][j].code {
          assert b[1..][i] == b[i + 1] && b[1..][j] == b[j + 1];
        }
      }
      if a[0] == b[0] {
        SubsequenceKeepsUnique(a[1..], b[1..]);
        SubsequenceMembers(a[1..], b[1..]);
        forall j | 0 < j < |a| ensures a[0].code != a[j].code {
          assert a[j] == a[1..][j - 1];
          var k :| 0 <= k < |b[1..]| && b[1..][k] == a[j];
          assert b[k + 1] == a[j];
        }
      } else {
        SubsequenceKeepsUnique(a, b[1..]);
      }
    }
  }

  /** Every element of a subsequence is an element of the whole. */
  lemma {:induction false} SubsequenceMembers(a: Store, b: Store)
    requires IsSubsequence(a, b)
    ensures forall i :: 0 <= i < |a| ==> a[i] in b
    decreases |b|
  {
    if |a| > 0 {
      if a[0] == b[0] {
        SubsequenceMembers(a[1..], b[1..]);
        forall i | 0 < i < |a| ensures a[i] in b {
          assert a[i] == a[1..][i - 1];
        }
      } else {
        SubsequenceMembers(a, b[1..]);
      }
    }
  }

  /** Adding the same code twice: the second call refuses, and the list
      holds exactly one record with that code. */
  lemma AddTwice(s: Store, code: string, name1: string, name2: string,
                 sh1: Option<real>, sh2: Option<real>, cp1: Option<real>, cp2: Option<real>,
                 t1: int, t2: int)
    requires UniqueCodes(s)
    ensures var first := AddMyFund(s, code, name1, sh1, cp1, t1);
            var second := AddMyFund(first.1, code, name2, sh2, cp2, t2);
            && !second.0
            && second.1 == first.1
            && UniqueCodes(second.1)
            && |set i | 0 <= i < |second.1| && second.1[i].code == code| == 1
  {
    var first := AddMyFund(s, code, name1, sh1, cp1, t1);
    var t := first.1;
    var k := FindIndex(t, code).value;
    assert (set i | 0 <= i < |t| && t[i].code == code) == {k};
  }

  /** Removing is idempotent. */
  lemma RemoveIdempotent(s: Store, code: string)
    ensures RemoveMyFund(RemoveMyFund(s, code), code) == RemoveMyFund(s, code)
  {
    FilterIdempotent(s, (h: FundHolding) => h.code != code);
  }

  /** Removing a freshly added code restores the list (round trip). */
  lemma RemoveUndoesAdd(s: Store, code: string, name: string, shares: Option<real>,
                        costPrice: Option<real>, now: int)
    requires !IsFundAdded(s, code)
    ensures RemoveMyFund(AddMyFund(s, code, name, shares, costPrice, now).1, code) == s
  {
    var keep := (h: FundHolding) => h.code != code;
    FilterKeepsAll(s, keep);
  }

  /** After an update, a lookup of that code sees the new shares and cost
      price and the old name, code and add time. */
  lemma UpdateThenGet(s: Store, code: string, shares: real, costPrice: real)
    requires IsFundAdded(s, code)
    ensures var before := GetFundHolding(s, code).value;
            GetFundHolding(UpdateFundHolding(s, code, shares, costPrice), code)
              == Some(before.(shares := shares, costPrice := costPrice))
  {
    var r := UpdateFundHolding(s, code, shares, costPrice);
    var i := FindIndex(s, code).value;
    assert FindIndex(r, code) == Some(i) by {
      FindIndexUnchangedPrefix(s, r, code, i);
    }
  }

  /** Two lists that agree on codes up to and including position `i`, where
      `i` is the first position holding `code`, find `code` at `i`. */
  lemma {:induction false} FindIndexUnchangedPrefix(s: Store, r: Store, code: string, i: nat)
    requires FindIndex(s, code) == Some(i)
    requires i < |r|
    requires forall j :: 0 <= j <= i ==> r[j].code == s[j].code
    ensures FindIndex(r, code) == Some(i)
    decreases i
  {
    if i > 0 {
      assert s[0].code != code;
      assert FindIndex(s[1..], code) == Some(i - 1);
      FindIndexUnchangedPrefix(s[1..], r[1..], code, i - 1);
    }
  }
}
