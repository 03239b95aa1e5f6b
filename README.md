# Menu item store and collection endpoint

This project models the collection endpoint of a small restaurant-menu web
application, `app/api/menu/route.ts`. The endpoint keeps the menu as a list of
food items in one JSON file. It has four parts:

- a fail-soft loader (`readMenuItems`): a file that cannot be read or is not valid JSON reads as the empty list;
- a whole-list saver (`writeMenuItems`): a write error is logged and swallowed;
- the list handler (`GET`): returns the loaded list with status 200;
- the create handler (`POST`): parses the request body as an item and gives it an id.
  The id is 1 on an empty list and otherwise the last stored item's id plus one.
  The handler appends the item, saves the whole list and returns the item with status 201.

In the model, the file is the field `MenuStore.file` of type
`Option<seq<FoodItem>>`. `None` stands for a file that cannot be read or is
not valid JSON. Two outcomes that depend on the outside world are parameters:

- whether the request body parsed (`request: Option<FoodItem>`);
- whether the file write succeeded (`written: bool`).

`FoodItem` is a datatype. The handler's field assignment `newFoodItem.id = …`
becomes the datatype update `body.(id := …)`.

The id rule takes the LAST element's id, not the largest. Over a list whose ids
strictly increase the two rules coincide (`NextIdIsMaxPlusOne`). Create keeps
such a list strictly increasing, so its ids stay distinct (`AppendedKeepsIncreasing`).
Without that order the rule can reuse an id (`LastIdRuleNeedsOrder`). A
"largest id + 1" rule would be the natural alternative; the model follows the
code, and the lemmas above say when the two agree.

`MenuRoute.CreateTwiceOnEmpty` is a small client. It shows that two saved
creates on an empty store give ids 1 and 2, and that the list handler then
returns exactly those two items.

## Model

| member | source | states |
|---|---|---|
| MenuRoute.MenuStore.Load | app/api/menu/route.ts:10-18 | the load never fails to its caller: a readable file yields its list, and one that cannot be read or is not valid JSON yields `[]` |
| MenuRoute.MenuStore.Save | app/api/menu/route.ts:20-26 | a successful save replaces the whole stored list, so a later load returns exactly the saved list; a failed write is swallowed and leaves the file unchanged |
| MenuRoute.MenuStore.List | app/api/menu/route.ts:28-39 | the list handler always answers 200 with the loaded list unchanged (`[]` for an unreadable file); the 500 branch cannot be reached because the load cannot throw |
| MenuRoute.MenuStore.Create | app/api/menu/route.ts:41-58 | a body that does not parse gives 500 and leaves the file alone; otherwise the status is 201 and the new id is 1 on an empty list, else the last element's id + 1. The body's own id is overwritten and every other field (`title`, `description`, `Cost`) is kept. The returned item is exactly the one appended. On a saved write the list grows by one, earlier items stay unchanged and in order, and the new item is last. A strictly increasing id list stays strictly increasing with distinct ids, and the new id exceeds every earlier one |
| MenuItems.IncreasingOrdered | app/api/menu/route.ts:46-47 | in a list whose ids increase from each element to the next, every earlier id is below every later one |
| MenuItems.IncreasingDistinct | app/api/menu/route.ts:46-47 | strictly increasing ids are pairwise distinct |
| MenuItems.NextIdFresh | app/api/menu/route.ts:46 | over a strictly increasing list the assigned id is larger than every stored id, so it is not already in use |
| MenuItems.MaxIdIsMaximum | app/api/menu/route.ts:46 | the largest id of a non-empty list bounds every id and occurs in the list |
| MenuItems.NextIdIsMaxPlusOne | app/api/menu/route.ts:46 | over a strictly increasing non-empty list the "last id + 1" rule gives the same id as "largest id + 1" |
| MenuItems.AppendedKeepsIncreasing | app/api/menu/route.ts:46-47 | appending the stamped item to a strictly increasing list keeps it strictly increasing, so ids stay pairwise distinct |
| MenuItems.LastIdRuleNeedsOrder | app/api/menu/route.ts:46 | without increasing order the rule can repeat an id: the stored ids 2, 1 are distinct, but a new item also receives id 2 |

## Left out

- File I/O (`fs.readFileSync`, `fs.writeFileSync`) and the fixed data file path: the file is the abstract field `MenuStore.file`, and the write outcome is the parameter `written`.
- JSON parsing and printing of the file and of the request body: the model takes the stored list as the list last saved. A body that parses is taken to be a well-formed item. The source casts it without checking, and the model covers neither missing fields nor wrongly typed ones.
- A file holding valid JSON that is not an array (`null`, `{}`, `5`): the loader only casts the parsed value, so the list handler answers 200 with that value as it is. The create handler throws and answers 500: at `foodItems.length` for `null`, or at `push` for `{}` or a number. The model's `file` is either a list of items or unreadable, so it has no such state.
- MenuRoute.MenuStore.Save: a write that fails halfway, leaving a truncated or corrupt file, is not modelled; a failed write leaves the file unchanged.
- Error logging through `console.error`: it has no effect on the result.
- The `NextResponse` wrapper and `request.json()`: responses are the small datatype `Response` (status 200, 201 or 500 with a payload).
- JavaScript numbers: ids are unbounded integers. Above 2^53 the source's `id + 1` would round, which the model does not capture.
- Object identity: the handler returns the same object it pushed. The model states this as equality of the returned and the appended values.
- Concurrent requests and the lost-update race between them: calls are sequential.
- Get-by-id, update and delete are not part of this model. They live in `app/api/menu/[id]/route.ts`.
- The page and component files: they are client-side rendering and `fetch` calls. That includes the cost suffix formatting in `app/menu/add/page.tsx`.
