/**
 * The order in which the currency picker lists a short list: the
 * comparator sort that puts the selected currency first.
 */
module CurrencyOrder {
  import opened Wrappers
  import opened Types

  /** The entries carrying `code`, in order. */
  function WithCode(list: seq<SlimCurrency>, code: string): (r: seq<SlimCurrency>)
    ensures forall i :: 0 <= i < |r| ==> r[i].code == code
    ensures |r| <= |list|
  {
    if |list| == 0 then []
    else if list[0].code == code then [list[0]] + WithCode(list[1..], code)
    else WithCode(list[1..], code)
  }

  /** The entries not carrying `code`, in order. */
  function WithoutCode(list: seq<SlimCurrency>, code: string): (r: seq<SlimCurrency>)
    ensures forall i :: 0 <= i < |r| ==> r[i].code != code
    ensures |r| <= |list|
  {
    if |list| == 0 then []
    else if list[0].code != code then [list[0]] + WithoutCode(list[1..], code)
    else WithoutCode(list[1..], code)
  }

  /**
   * `currenciesList.sort(...)` with the comparator that ranks an entry
   * carrying the selected code before any other and leaves all other pairs
   * tied. With a stable sort this is a stable partition; without a
   * selection every pair ties and the order is kept.
   */
  function Reorder(list: seq<SlimCurrency>, selected: Option<SlimCurrency>): (r: seq<SlimCurrency>)
    ensures selected.None? ==> r == list
    ensures selected.Some? ==>
              forall i, j :: 0 <= i < j < |r| && r[j].code == selected.value.code ==> r[i].code == selected.value.code
  {
    match selected
    case None => list
    case Some(c) => WithCode(list, c.code) + WithoutCode(list, c.code)
  }

  lemma {:induction false} PartitionMultiset(list: seq<SlimCurrency>, code: string)
    ensures multiset(WithCode(list, code)) + multiset(WithoutCode(list, code)) == multiset(list)
    decreases |list|
  {
    if |list| > 0 {
      var x, tail := list[0], list[1..];
      PartitionMultiset(tail, code);
      assert list == [x] + tail;
      assert multiset(list) == multiset{x} + multiset(tail);
      if x.code == code {
        assert WithCode(list, code) == [x] + WithCode(tail, code);
        assert WithoutCode(list, code) == WithoutCode(tail, code);
        assert multiset(WithCode(list, code)) == multiset{x} + multiset(WithCode(tail, code));
      } else {
        assert WithCode(list, code) == WithCode(tail, code);
        assert WithoutCode(list, code) == [x] + WithoutCode(tail, code);
        assert multiset(WithoutCode(list, code)) == multiset{x} + multiset(WithoutCode(tail, code));
      }
    }
  }

  /** The reordered list holds exactly the input's entries, with multiplicity. */
  lemma ReorderIsPermutation(list: seq<SlimCurrency>, selected: Option<SlimCurrency>)
    ensures multiset(Reorder(list, selected)) == multiset(list)
    ensures |Reorder(list, selected)| == |list|
  {
    if selected.Some? {
      PartitionMultiset(list, selected.value.code);
    }
    assert |multiset(Reorder(list, selected))| == |multiset(list)|;
  }

  lemma {:induction false} WithoutCodeConcat(a: seq<SlimCurrency>, b: seq<SlimCurrency>, code: string)
    ensures WithoutCode(a + b, code) == WithoutCode(a, code) + WithoutCode(b, code)
    decreases |a|
  {
    if |a| == 0 {
      assert a + b == b;
    } else {
      assert (a + b)[0] == a[0];
      assert (a + b)[1..] == a[1..] + b;
      WithoutCodeConcat(a[1..], b, code);
    }
  }

  lemma {:induction false} WithoutCodeOfNone(list: seq<SlimCurrency>, code: string)
    requires forall i :: 0 <= i < |list| ==> list[i].code != code
    ensures WithoutCode(list, code) == list
    ensures WithCode(list, code) == []
    decreases |list|
  {
    if |list| > 0 {
      WithoutCodeOfNone(list[1..], code);
      assert [list[0]] + list[1..] == list;
    }
  }

  lemma {:induction false} WithoutCodeOfAll(list: seq<SlimCurrency>, code: string)
    requires forall i :: 0 <= i < |list| ==> list[i].code == code
    ensures WithoutCode(list, code) == []
    decreases |list|
  {
    if |list| > 0 {
      WithoutCodeOfAll(list[1..], code);
    }
  }

  /** The entries not carrying the selected code keep their relative order. */
  lemma ReorderKeepsOthersInOrder(list: seq<SlimCurrency>, selected: SlimCurrency)
    ensures WithoutCode(Reorder(list, Some(selected)), selected.code) == WithoutCode(list, selected.code)
  {
    var code := selected.code;
    WithoutCodeConcat(WithCode(list, code), WithoutCode(list, code), code);
    WithoutCodeOfAll(WithCode(list, code), code);
    WithoutCodeOfNone(WithoutCode(list, code), code);
  }

  /** When no entry carries the selected code, the order is unchanged. */
  lemma ReorderAbsentIsIdentity(list: seq<SlimCurrency>, selected: SlimCurrency)
    requires forall i :: 0 <= i < |list| ==> list[i].code != selected.code
    ensures Reorder(list, Some(selected)) == list
  {
    WithoutCodeOfNone(list, selected.code);
  }

  lemma {:induction false} WithCodeOfSingle(list: seq<SlimCurrency>, code: string, i: nat)
    requires i < |list| && list[i].code == code
    requires forall j :: 0 <= j < |list| && j != i ==> list[j].code != code
    ensures WithCode(list, code) == [list[i]]
    decreases |list|
  {
    if i == 0 {
      WithoutCodeOfNone(list[1..], code);
    } else {
      WithCodeOfSingle(list[1..], code, i - 1);
    }
  }

  lemma {:induction false} WithoutCodeOfSingle(list: seq<SlimCurrency>, code: string, i: nat)
    requires i < |list| && list[i].code == code
    requires forall j :: 0 <= j < |list| && j != i ==> list[j].code != code
    ensures WithoutCode(list, code) == list[..i] + list[i + 1..]
    decreases |list|
  {
    var x, tail := list[0], list[1..];
    if i == 0 {
      assert forall j :: 0 <= j < |tail| ==> tail[j] == list[j + 1];
      WithoutCodeOfNone(tail, code);
    } else {
      assert x.code != code;
      assert forall j :: 0 <= j < |tail| && j != i - 1 ==> tail[j] == list[j + 1];
      WithoutCodeOfSingle(tail, code, i - 1);
      assert WithoutCode(list, code) == [x] + WithoutCode(tail, code);
      assert list[..i] == [x] + tail[..i - 1];
      assert list[i + 1..] == tail[i..];
    }
  }

  /**
   * A code carried by exactly one entry moves that entry to the front;
   * the others follow in their original order.
   */
  lemma ReorderSingleMovesToFront(list: seq<SlimCurrency>, selected: SlimCurrency, i: nat)
    requires i < |list| && list[i].code == selected.code
    requires forall j :: 0 <= j < |list| && j != i ==> list[j].code != selected.code
    ensures Reorder(list, Some(selected))[0] == list[i]
    ensures Reorder(list, Some(selected))[1..] == list[..i] + list[i + 1..]
  {
    WithCodeOfSingle(list, selected.code, i);
    WithoutCodeOfSingle(list, selected.code, i);
  }
}
