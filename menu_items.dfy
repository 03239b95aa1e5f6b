/** Menu items as the menu API stores them, and the rule that picks the id of
    a newly created item: one more than the id of the LAST stored item, or 1
    when nothing is stored. */
module MenuItems {

  datatype Option<+T> = None | Some(value: T)

  /** One menu entry. `Cost` is the optional price string ("5 $"); the field
      keeps the capitalised name the stored records use. */
  datatype FoodItem = FoodItem(id: int, title: string, description: string, Cost: Option<string>)

  /** The id the create handler gives to the next item. */
  function NextId(items: seq<FoodItem>): int
  {
    if |items| == 0 then 1 else items[|items| - 1].id + 1
  }

  /** The request body with its id replaced by the assigned one. */
  function Stamp(body: FoodItem, items: seq<FoodItem>): FoodItem
  {
    body.(id := NextId(items))
  }

  /** The stored list after a create: the old list with the stamped body appended. */
  function Appended(items: seq<FoodItem>, body: FoodItem): seq<FoodItem>
  {
    items + [Stamp(body, items)]
  }

  /** Ids strictly increase from each element to the next. */
  predicate Increasing(s: seq<FoodItem>)
  {
    forall k :: 0 <= k < |s| - 1 ==> s[k].id < s[k + 1].id
  }

  /** No two elements share an id. */
  predicate DistinctIds(s: seq<FoodItem>)
  {
    forall i, j :: 0 <= i < |s| && 0 <= j < |s| && i != j ==> s[i].id != s[j].id
  }

  /** The largest id in a non-empty list. */
  function MaxId(s: seq<FoodItem>): int
    requires |s| > 0
  {
    if |s| == 1 then s[0].id
    else if s[|s| - 1].id > MaxId(s[..|s| - 1]) then s[|s| - 1].id
    else MaxId(s[..|s| - 1])
  }

  /** The largest id is at least every id and is one of them. */
  lemma {:induction false} MaxIdIsMaximum(s: seq<FoodItem>)
    requires |s| > 0
    ensures forall i :: 0 <= i < |s| ==> s[i].id <= MaxId(s)
    ensures exists i :: 0 <= i < |s| && s[i].id == MaxId(s)
  {
    if |s| > 1 {
      var p := s[..|s| - 1];
      MaxIdIsMaximum(p);
      assert forall i :: 0 <= i < |p| ==> s[i] == p[i];
      if s[|s| - 1].id <= MaxId(p) {
        var w :| 0 <= w < |p| && p[w].id == MaxId(p);
        assert s[w].id == MaxId(s);
      }
    } else {
      assert s[0].id == MaxId(s);
    }
  }

  /** In a strictly increasing list every earlier id is below every later one. */
  lemma {:induction false} IncreasingOrdered(s: seq<FoodItem>, i: int, j: int)
    requires Increasing(s)
    requires 0 <= i < j < |s|
    ensures s[i].id < s[j].id
  {
    if i + 1 < j {
      IncreasingOrdered(s, i, j - 1);
    }
  }

  /** Strictly increasing ids are pairwise distinct. */
  lemma IncreasingDistinct(s: seq<FoodItem>)
    requires Increasing(s)
    ensures DistinctIds(s)
  {
    forall i, j | 0 <= i < |s| && 0 <= j < |s| && i != j
      ensures s[i].id != s[j].id
    {
      if i < j { IncreasingOrdered(s, i, j); } else { IncreasingOrdered(s, j, i); }
    }
  }

  /** Over a strictly increasing list the assigned id is above every stored id,
      so it is new. */
  lemma NextIdFresh(items: seq<FoodItem>)
    requires Increasing(items)
    ensures forall i :: 0 <= i < |items| ==> items[i].id < NextId(items)
  {
    forall i | 0 <= i < |items|
      ensures items[i].id < NextId(items)
    {
      if i < |items| - 1 { IncreasingOrdered(items, i, |items| - 1); }
    }
  }

  /** Over a strictly increasing non-empty list, "last id + 1" is the same as
      "largest id + 1". */
  lemma {:induction false} NextIdIsMaxPlusOne(items: seq<FoodItem>)
    requires Increasing(items)
    requires |items| > 0
    ensures NextId(items) == MaxId(items) + 1
  {
    MaxIdIsMaximum(items);
    NextIdFresh(items);
  }

  /** Creating keeps a strictly increasing list strictly increasing, so its ids
      stay pairwise distinct. */
  lemma AppendedKeepsIncreasing(items: seq<FoodItem>, body: FoodItem)
    requires Increasing(items)
    ensures Increasing(Appended(items, body))
    ensures DistinctIds(Appended(items, body))
  {
    var r := Appended(items, body);
    forall k | 0 <= k < |r| - 1
      ensures r[k].id < r[k + 1].id
    {
      if k < |items| - 1 {
        assert r[k] == items[k] && r[k + 1] == items[k + 1];
      } else {
        assert r[k] == items[|items| - 1] && r[k + 1].id == items[|items| - 1].id + 1;
      }
    }
    IncreasingDistinct(r);
  }

  /** Without increasing order the last-id rule can hand out an id already in
      use: the stored ids 2, 1 are distinct, yet the new item also gets id 2. */
  lemma LastIdRuleNeedsOrder()
    ensures var s := [FoodItem(2, "a", "b", None), FoodItem(1, "c", "d", None)];
            var body := FoodItem(0, "e", "f", None);
            DistinctIds(s) && !Increasing(s) && !DistinctIds(Appended(s, body))
  {
    var s := [FoodItem(2, "a", "b", None), FoodItem(1, "c", "d", None)];
    var r := Appended(s, FoodItem(0, "e", "f", None));
    assert r[0].id == r[2].id;
  }
}
