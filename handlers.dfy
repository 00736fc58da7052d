/** The decisions of the two product handlers: the form's submit handler
    (app.js:130-183) and the table's edit/delete click handler together with
    `deleteProduct` (app.js:212-252). Each returns what the handler writes,
    so an outcome without a write stands for an alert and `return`. */
module Handlers {
  import opened Wrappers
  import opened Text
  import opened Products
  import opened Validation
  import opened Changes
  import opened History

  datatype SubmitOutcome =
    | Refused(reason: SaveError)
    | Update(id: string, fields: ProductInput, entry: HistoryEntry)
    | UpdateFailed(id: string)
    | Create(fields: ProductInput, createdBy: string, entry: HistoryEntry)

  /** What the update path's `getDoc` reads: no document any more (its
      `data()` is `undefined`), or a document whose stock field may be missing. */
  datatype StoredDoc = Missing | Found(stock: Option<int>)

  /** The submit handler. `productId` is the hidden id field ("" for a new
      product) and `stored` the document the update path reads before
      writing. A refused form writes nothing. A valid one creates a product
      when no id is set. With an id it updates the product and logs the signed
      change of stock, unless the document is gone: reading its stock then
      throws, the handler only alerts, and nothing is written. */
  function SubmitProduct(user: string, productId: string, nameInput: string, category: string,
                         quantity: Option<int>, stored: StoredDoc): (r: SubmitOutcome)
    ensures var v := ValidateProductForm(user, nameInput, category, quantity);
      && (r.Refused? <==> v.Err?)
      && (r.Refused? ==> r.reason == v.error)
      && (r.Update? <==> v.Ok? && productId != "" && stored.Found?)
      && (r.UpdateFailed? <==> v.Ok? && productId != "" && stored.Missing?)
      && (r.Create? <==> v.Ok? && productId == "")
      && ((r.Update? || r.Create?) ==> r.fields == v.value)
    ensures r.Update? || r.UpdateFailed? ==> r.id == productId
    ensures r.Update? ==> r.entry.action == "update" && r.entry.name == r.fields.name && r.entry.actor == user
    ensures r.Update? && stored.stock.Some? ==> DecodeChange(r.entry.change) == Some(r.fields.stock - stored.stock.value)
    ensures r.Update? && stored.stock.None? ==> r.entry.change == "NaN"
    ensures r.Update? && stored.stock.Some? ==> r.entry.change == ChangeString(r.fields.stock - stored.stock.value)
    ensures r.Create? ==>
      r.createdBy == user && r.entry.action == "create" && r.entry.name == r.fields.name && r.entry.actor == user
    ensures r.Create? ==> DecodeChange(r.entry.change) == Some(r.fields.stock)
    ensures r.Create? ==> r.entry.change == CreateChange(r.fields.stock)
  {
    match ValidateProductForm(user, nameInput, category, quantity)
    case Err(e) => Refused(e)
    case Ok(fields) =>
      if productId != "" then
        match stored
        case Missing => UpdateFailed(productId)
        case Found(oldStock) =>
          Update(productId, fields, HistoryEntry("update", fields.name, UpdateChange(fields.stock, oldStock), user))
      else
        Create(fields, user, HistoryEntry("create", fields.name, CreateChange(fields.stock), user))
  }

  /** Position `i` holds the first product with that id. */
  predicate FirstWithId(all: seq<Product>, id: string, i: int)
  {
    0 <= i < |all| && all[i].id == id && forall j :: 0 <= j < i ==> all[j].id != id
  }

  /** `allProducts.find(p => p.id === id)`: the first product with that id. */
  function FindById(all: seq<Product>, id: string): (r: Option<Product>)
    ensures r.Some? ==> exists i :: FirstWithId(all, id, i) && all[i] == r.value
    ensures r.None? ==> forall i :: 0 <= i < |all| ==> all[i].id != id
  {
    if all == [] then None
    else if all[0].id == id then Some(all[0])
    else
      var r := FindById(all[1..], id);
      FirstInTail(all, id, r);
      r
  }

  /** A product found first in the tail of a list whose head has another id
      is found first in the whole list. */
  lemma FirstInTail(all: seq<Product>, id: string, r: Option<Product>)
    requires all != [] && all[0].id != id
    requires r.Some? ==> exists i :: FirstWithId(all[1..], id, i) && all[1..][i] == r.value
    ensures r.Some? ==> exists i :: FirstWithId(all, id, i) && all[i] == r.value
  {
    if r.Some? {
      var i :| FirstWithId(all[1..], id, i) && all[1..][i] == r.value;
      forall j | 0 <= j < i + 1
        ensures all[j].id != id
      {
        if j > 0 {
          assert all[j] == all[1..][j - 1];
        }
      }
      assert all[i + 1] == r.value && FirstWithId(all, id, i + 1);
    }
  }

  datatype ClickOutcome =
    | Ignored
    | NeedUser
    | Edit(product: Product)
    | DeleteCancelled
    | Delete(id: string, entry: HistoryEntry)

  /** The table's click handler. A click without an action or id, or on a
      product no longer in the list, does nothing; without a user name it only
      alerts. "edit" loads the product into the form; "delete" asks for
      confirmation (`confirmed` is the answer) and then deletes the document
      and logs the stock removed. */
  function ProductClick(action: string, id: string, user: string, all: seq<Product>, confirmed: bool)
    : (r: ClickOutcome)
    ensures (action == "" || id == "") ==> r == Ignored
    ensures r.Edit? ==> action == "edit" && FindById(all, id) == Some(r.product)
    ensures action == "edit" && id != "" && user != "" && FindById(all, id).Some? ==>
      r == Edit(FindById(all, id).value)
    ensures action == "delete" && id != "" && user != "" && FindById(all, id).Some? && !confirmed ==>
      r == DeleteCancelled
    ensures action != "" && id != "" && user != "" && FindById(all, id).None? ==> r == Ignored
    ensures r == NeedUser <==> action != "" && id != "" && user == ""
    ensures action != "" && id != "" && user != "" && action != "edit" && action != "delete" ==> r == Ignored
    ensures r.Delete? <==> action == "delete" && id != "" && user != "" && FindById(all, id).Some? && confirmed
    ensures r.Delete? ==> r.id == id && r.entry.action == "delete" && r.entry.actor == user
    ensures r.Delete? ==> r.entry.name == OrEmpty(FindById(all, id).value.name)
    ensures r.Delete? ==> DecodeChange(r.entry.change) == Some(-StockOf(FindById(all, id).value))
    ensures r.Delete? ==> r.entry.change == DeleteChange(StockOf(FindById(all, id).value))
  {
    if action == "" || id == "" then Ignored
    else if user == "" then NeedUser
    else
      match FindById(all, id)
      case None => Ignored
      case Some(p) =>
        if action == "edit" then Edit(p)
        else if action == "delete" then
          if confirmed then Delete(id, HistoryEntry("delete", OrEmpty(p.name), DeleteChange(StockOf(p)), user))
          else DeleteCancelled
        else Ignored
  }

  // ----- The audit log as a ledger of one product's stock -----

  /** Sum of the signed changes of a run of records; `None` if one of them
      does not read as a signed number. */
  function LedgerSum(entries: seq<HistoryEntry>): Option<int>
  {
    if entries == [] then Some(0)
    else
      match (LedgerSum(entries[..|entries| - 1]), DecodeChange(entries[|entries| - 1].change))
      case (Some(total), Some(d)) => Some(total + d)
      case _ => None
  }

  /** A create's record alone accounts for the new product's stock. */
  lemma CreateOpensLedger(user: string, nameInput: string, category: string, quantity: Option<int>, stored: StoredDoc)
    requires SubmitProduct(user, "", nameInput, category, quantity, stored).Create?
    ensures var r := SubmitProduct(user, "", nameInput, category, quantity, stored);
      LedgerSum([r.entry]) == Some(r.fields.stock)
  {
    var r := SubmitProduct(user, "", nameInput, category, quantity, stored);
    assert [r.entry][..0] == [];
  }

  /** When the records so far sum to the stock the update reads, the update's
      record brings the sum to the stock it writes. */
  lemma UpdateKeepsLedger(entries: seq<HistoryEntry>, user: string, productId: string, nameInput: string,
                          category: string, quantity: Option<int>, stock: int)
    requires LedgerSum(entries) == Some(stock)
    requires SubmitProduct(user, productId, nameInput, category, quantity, Found(Some(stock))).Update?
    ensures var r := SubmitProduct(user, productId, nameInput, category, quantity, Found(Some(stock)));
      LedgerSum(entries + [r.entry]) == Some(r.fields.stock)
  {
    var r := SubmitProduct(user, productId, nameInput, category, quantity, Found(Some(stock)));
    assert (entries + [r.entry])[..|entries|] == entries;
  }

  /** When the records so far sum to the product's stock, its delete record brings the sum to zero. */
  lemma DeleteClosesLedger(entries: seq<HistoryEntry>, id: string, user: string, all: seq<Product>)
    requires ProductClick("delete", id, user, all, true).Delete?
    requires LedgerSum(entries) == Some(StockOf(FindById(all, id).value))
    ensures LedgerSum(entries + [ProductClick("delete", id, user, all, true).entry]) == Some(0)
  {
    var r := ProductClick("delete", id, user, all, true);
    assert (entries + [r.entry])[..|entries|] == entries;
  }
}
