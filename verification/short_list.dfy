/**
 * The currency short-list screen: the all-or-nothing guard in front of
 * removal, and the toggle that maintains the set of selected codes.
 */
module ShortList {
  import opened Wrappers
  import opened Types

  /** The screen's state: the short list shown and the codes selected in it. */
  datatype ConfigState = ConfigState(shortList: seq<SlimCurrency>, selected: seq<string>)

  /** What the guard decides about a removal request. */
  datatype RemovalVerdict = NothingSelected | InUse | Requested(codes: seq<string>)

  /** `expenses.some(expense => selected.includes(expense.currency))`. */
  function SomeExpenseUses(expenses: seq<Expense>, selected: seq<string>): (used: bool)
    ensures used <==> exists e :: e in expenses && e.currency in selected
  {
    if |expenses| == 0 then false
    else expenses[0].currency in selected || SomeExpenseUses(expenses[1..], selected)
  }

  /** The checks at the top of `handleRemoveFromShortList`. */
  function RemovalGuard(selected: seq<string>, expenses: seq<Expense>): (v: RemovalVerdict)
    ensures v == NothingSelected <==> |selected| == 0
    ensures v == InUse <==> |selected| > 0 && exists e :: e in expenses && e.currency in selected
    ensures v.Requested? ==> v.codes == selected
    ensures v.Requested? ==> forall e :: e in expenses ==> e.currency !in v.codes
  {
    if |selected| == 0 then NothingSelected
    else if |expenses| > 0 && SomeExpenseUses(expenses, selected) then InUse
    else Requested(selected)
  }

  /**
   * `handleRemoveFromShortList`. The removal itself and the reload of the
   * list happen in code outside this model: `removed` says whether the
   * removal call returned normally, `reloaded` is the list read back
   * afterwards (`None` when that read threw).
   */
  function HandleRemoveFromShortList(st: ConfigState, expenses: seq<Expense>, removed: bool,
                                     reloaded: Option<seq<SlimCurrency>>): (r: ConfigState)
    ensures |st.selected| == 0 ==> r == st
    ensures (exists e :: e in expenses && e.currency in st.selected) ==> r == st
    ensures |st.selected| > 0 && (forall e :: e in expenses ==> e.currency !in st.selected) ==>
              && (r.selected == [] <==> removed)
              && (!removed ==> r.selected == st.selected)
              && r.shortList == (if reloaded.Some? then reloaded.value else st.shortList)
  {
    match RemovalGuard(st.selected, expenses)
    case Requested(codes) =>
      ConfigState(if reloaded.Some? then reloaded.value else st.shortList,
                  if removed then [] else st.selected)
    case _ => st
  }

  /** The codes of `s` other than `c`, in order (`filter(code => code !== c)`). */
  function Without(s: seq<string>, c: string): (r: seq<string>)
    ensures c !in r
    ensures forall d :: d != c ==> (d in r <==> d in s)
    ensures |r| <= |s|
  {
    if |s| == 0 then []
    else if s[0] == c then Without(s[1..], c)
    else [s[0]] + Without(s[1..], c)
  }

  /** `handleCurrencySelect`: drop `c` when selected, append it otherwise. */
  function Toggle(selected: seq<string>, c: string): (r: seq<string>)
    ensures c in r <==> c !in selected
    ensures forall d :: d != c ==> (d in r <==> d in selected)
  {
    if c in selected then Without(selected, c) else selected + [c]
  }

  /** No code is selected twice. */
  predicate Distinct(s: seq<string>) {
    forall i, j :: 0 <= i < j < |s| ==> s[i] != s[j]
  }

  lemma {:induction false} WithoutConcat(a: seq<string>, b: seq<string>, c: string)
    ensures Without(a + b, c) == Without(a, c) + Without(b, c)
    decreases |a|
  {
    if |a| == 0 {
      assert a + b == b;
    } else {
      assert (a + b)[0] == a[0];
      assert (a + b)[1..] == a[1..] + b;
      WithoutConcat(a[1..], b, c);
    }
  }

  lemma {:induction false} WithoutAbsent(s: seq<string>, c: string)
    requires c !in s
    ensures Without(s, c) == s
    decreases |s|
  {
    if |s| > 0 {
      WithoutAbsent(s[1..], c);
      assert [s[0]] + s[1..] == s;
    }
  }

  lemma {:induction false} WithoutKeepsDistinct(s: seq<string>, c: string)
    requires Distinct(s)
    ensures Distinct(Without(s, c))
    decreases |s|
  {
    if |s| > 0 {
      var tail := s[1..];
      assert Distinct(tail) by {
        forall i, j | 0 <= i < j < |tail| ensures tail[i] != tail[j] {
          assert tail[i] == s[i + 1] && tail[j] == s[j + 1];
        }
      }
      WithoutKeepsDistinct(tail, c);
      if s[0] != c {
        assert s[0] !in tail by {
          forall j | 0 <= j < |tail| ensures tail[j] != s[0] {
            assert tail[j] == s[j + 1];
          }
        }
        var rest := Without(tail, c);
        var r := [s[0]] + rest;
        forall i, j | 0 <= i < j < |r| ensures r[i] != r[j] {
          if i == 0 {
            assert r[j] == rest[j - 1] && r[j] in rest;
          } else {
            assert r[i] == rest[i - 1] && r[j] == rest[j - 1];
          }
        }
      }
    }
  }

  /** Toggling `c` leaves the other codes, in their relative order, as they were. */
  lemma ToggleKeepsOthersInOrder(selected: seq<string>, c: string)
    ensures Without(Toggle(selected, c), c) == Without(selected, c)
  {
    if c in selected {
      WithoutAbsent(Without(selected, c), c);
    } else {
      WithoutConcat(selected, [c], c);
      assert Without([c], c) == [];
    }
  }

  /** Toggling keeps the selection free of duplicates. */
  lemma ToggleKeepsDistinct(selected: seq<string>, c: string)
    requires Distinct(selected)
    ensures Distinct(Toggle(selected, c))
  {
    if c in selected {
      WithoutKeepsDistinct(selected, c);
    } else {
      var r := selected + [c];
      forall i, j | 0 <= i < j < |r| ensures r[i] != r[j] {
        if j == |selected| {
          assert r[i] == selected[i];
        } else {
          assert r[i] == selected[i] && r[j] == selected[j];
        }
      }
    }
  }

  /** Selecting a code that was not selected and then deselecting it restores the selection. */
  lemma ToggleTwiceRestores(selected: seq<string>, c: string)
    requires c !in selected
    ensures Toggle(Toggle(selected, c), c) == selected
  {
    WithoutConcat(selected, [c], c);
    WithoutAbsent(selected, c);
    assert Without([c], c) == [];
  }
}
