/** The menu collection endpoint: a store holding the persisted item list, a
    fail-soft load, a whole-list save, and the list and create handlers. */
module MenuRoute {
  import opened MenuItems

  datatype Status = Ok200 | Created201 | ServerError500 {
    function Code(): int
    {
      match this
      case Ok200 => 200
      case Created201 => 201
      case ServerError500 => 500
    }
  }

  datatype Payload = Items(items: seq<FoodItem>) | Item(item: FoodItem) | Error(message: string)

  datatype Response = Response(status: Status, payload: Payload)

  const CreateFailed: string := "Failed to add foodItem."

  /** The persisted menu file. `file` is the list it holds, or None when the
      file cannot be read or is not valid JSON. */
  class MenuStore {
    var file: Option<seq<FoodItem>>

    constructor (initial: Option<seq<FoodItem>>)
      ensures file == initial
    {
      file := initial;
    }

    /** Fail-soft load: a file that cannot be read or is not valid JSON reads
        as no items. */
    function Load(): (items: seq<FoodItem>)
      reads this
      ensures file.Some? ==> items == file.value
      ensures file.None? ==> items == []
    {
      match file
      case Some(s) => s
      case None => []
    }

    /** Whole-list overwrite. `written` is the outcome of the file write; a
        failed write is swallowed and leaves the file as it was. */
    method Save(items: seq<FoodItem>, written: bool)
      modifies this
      ensures file == if written then Some(items) else old(file)
      ensures Load() == if written then items else old(Load())
    {
      if written {
        file := Some(items);
      }
    }

    /** The list handler: always status 200 with the loaded list, since the
        load never fails to its caller. */
    function List(): (r: Response)
      reads this
      ensures r.status == Ok200 && r.status.Code() == 200
      ensures r.payload == Items(Load())
      ensures file.None? ==> r.payload == Items([])
    {
      Response(Ok200, Items(Load()))
    }

    /** The create handler. `request` is the parsed request body, or None when
        the body is not valid JSON; `written` is the outcome of the save. */
    method Create(request: Option<FoodItem>, written: bool) returns (r: Response)
      modifies this
      ensures request.None? ==>
                r == Response(ServerError500, Error(CreateFailed)) && file == old(file)
      ensures request.Some? ==>
                var items := old(Load());
                var body := request.value;
                r.status == Created201 && r.payload.Item? &&
                // the id: 1 on an empty list, else the last element's id + 1
                r.payload.item.id == (if |items| == 0 then 1 else items[|items| - 1].id + 1) &&
                // every other field exactly as received
                r.payload.item == body.(id := r.payload.item.id) &&
                // the saved list is the old one with the returned item appended
                file == (if written then Some(items + [r.payload.item]) else old(file))
      ensures request.Some? && written ==>
                |Load()| == |old(Load())| + 1 &&
                Load()[..|old(Load())|] == old(Load()) &&
                Load()[|Load()| - 1] == r.payload.item
      ensures request.Some? && Increasing(old(Load())) ==>
                Increasing(Load()) && DistinctIds(Load()) &&
                forall i :: 0 <= i < |old(Load())| ==> old(Load())[i].id < r.payload.item.id
    {
      if request.None? {
        r := Response(ServerError500, Error(CreateFailed));
        return;
      }
      var newItem := request.value;
      var items := Load();
      ghost var before := items;
      newItem := Stamp(newItem, items);
      items := items + [newItem];
      if Increasing(before) {
        AppendedKeepsIncreasing(before, request.value);
        NextIdFresh(before);
        IncreasingDistinct(before);
      }
      Save(items, written);
      r := Response(Created201, Item(newItem));
    }
  }

  /** Two creates on an empty store, both saved, give ids 1 and 2, and the
      list handler then returns exactly those two items. */
  method CreateTwiceOnEmpty(soup: FoodItem, salad: FoodItem)
  {
    var store := new MenuStore(None);
    var r1 := store.Create(Some(soup), true);
    var r2 := store.Create(Some(salad), true);
    assert r1.payload.item.id == 1 && r2.payload.item.id == 2;
    assert store.List().payload == Items([soup.(id := 1), salad.(id := 2)]);
  }
}
