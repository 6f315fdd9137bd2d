/**
 * The per-user order conversation: the handlers for `/start`, the three kinds
 * of button press and free text, each updating the user's `user_data`
 * dictionary in place.
 */
module Conversation {
  import opened Wrappers
  import opened Strings
  import opened Callbacks
  import opened Dates
  import opened Catalog
  import opened OrderStore

  /** The values stored under `user_data['state']`: 'quantity', 'date' and 'confirm'. */
  datatype Phase = AwaitQuantity | AwaitDate | AwaitConfirm

  /** A snapshot of `user_data`: each key absent (None) or holding its value. */
  datatype UserData = UserData(
    category: Option<string>,
    product: Option<string>,
    state: Option<Phase>,
    quantity: Option<string>,
    deliveryDate: Option<string>)

  const EMPTY := UserData(None, None, None, None, None)

  /** What a handler sends back (text and buttons), or the KeyError it raises on a missing key. */
  datatype Outcome = Reply(text: string, keyboard: Keyboard) | KeyError(key: string)

  const WELCOME := "Welcome! Please choose a category:"
  const BAD_QUANTITY := "Quantity must be a number. Please enter again:"
  const ASK_DATE := "Please enter delivery date (dd-mm-yyyy):"
  const BAD_DATE := "Invalid date format. Use dd-mm-yyyy:"
  const USE_START := "Please use /start to begin your order."
  const CONFIRMED := "\U{2705} Thank you! Your order has been confirmed."
  const CANCELED := "\U{274C} Your order has been canceled."
  const CONFIRM_KEYBOARD: Keyboard := [[Button("Confirm", "confirm_yes"), Button("Cancel", "confirm_no")]]

  /** The keys the summary and the order row read, in the order they read them. */
  const KEYS: seq<string> := ["category", "product", "quantity", "delivery_date"]

  /** `user_data.get(k)` for one of the `KEYS`. */
  function Get(u: UserData, k: string): Option<string>
    requires k in KEYS
  {
    if k == "category" then u.category
    else if k == "product" then u.product
    else if k == "quantity" then u.quantity
    else u.deliveryDate
  }

  /** Whether `k in user_data`, for one of the `KEYS`. */
  predicate Present(u: UserData, k: string)
    requires k in KEYS
  {
    Get(u, k).Some?
  }

  /**
   * The first of 'category', 'product', 'quantity', 'delivery_date' that is
   * absent, in the order the summary and the order row read them: the key of
   * the KeyError they raise.
   */
  function MissingKey(u: UserData): (r: Option<string>)
    ensures r.None? <==> u.category.Some? && u.product.Some? && u.quantity.Some? && u.deliveryDate.Some?
    ensures r.Some? ==>
      exists j :: 0 <= j < |KEYS| && r.value == KEYS[j] && !Present(u, KEYS[j]) && forall i :: 0 <= i < j ==> Present(u, KEYS[i])
  {
    assert KEYS[0] == "category" && KEYS[1] == "product" && KEYS[2] == "quantity" && KEYS[3] == "delivery_date";
    if u.category.None? then
      Some("category")
    else if u.product.None? then
      Some("product")
    else if u.quantity.None? then
      Some("quantity")
    else if u.deliveryDate.None? then
      Some("delivery_date")
    else None
  }

  /** The label of each of the `KEYS` in the summary, in the same order. */
  const LABELS: seq<string> := ["Category", "Product", "Quantity", "Delivery Date"]

  lemma LabelsHaveNoBreak()
    ensures |LABELS| == |KEYS|
    ensures forall j :: 0 <= j < |LABELS| ==> '\n' !in LABELS[j] + ": "
  {
  }

  lemma KeysPresent(u: UserData)
    requires MissingKey(u).None?
    ensures forall k :: k in KEYS ==> Present(u, k)
  {
  }

  /** The summary line of the j-th key: its label, a colon and the stored value. */
  function SummaryLine(u: UserData, j: int): string
    requires MissingKey(u).None? && 0 <= j < |KEYS|
  {
    KeysPresent(u);
    LabelsHaveNoBreak();
    LABELS[j] + ": " + Get(u, KEYS[j]).value
  }

  lemma SummaryLinesHaveNoBreak(u: UserData)
    requires MissingKey(u).None?
    requires forall k :: k in KEYS ==> '\n' !in Get(u, k).value
    ensures forall j :: 0 <= j < |KEYS| ==> '\n' !in SummaryLine(u, j)
  {
    LabelsHaveNoBreak();
  }

  /** The order summary shown before confirmation: the lines of the four keys, separated by line breaks. */
  function Summary(u: UserData): string
    requires MissingKey(u).None?
  {
    Join(seq(|KEYS|, j requires 0 <= j < |KEYS| => SummaryLine(u, j)), '\n')
  }

  /**
   * The summary reads back line by line: when no value holds a line break,
   * splitting it on line breaks gives one line per key, in key order, each the
   * label, a colon and the stored value.
   */
  lemma SummaryReadsBack(u: UserData)
    requires MissingKey(u).None?
    requires forall k :: k in KEYS ==> '\n' !in Get(u, k).value
    ensures var lines := SplitOn(Summary(u), '\n');
      |lines| == |KEYS| && forall j :: 0 <= j < |KEYS| ==> lines[j] == LABELS[j] + ": " + Get(u, KEYS[j]).value
  {
    SummaryLinesHaveNoBreak(u);
    SplitOnJoin(seq(|KEYS|, j requires 0 <= j < |KEYS| => SummaryLine(u, j)), '\n');
  }

  /** The columns of the orders file: the user id, then the `KEYS` in order, then the creation time. */
  lemma HeaderColumns()
    ensures |HEADER| == |KEYS| + 2 && HEADER[0] == "user_id" && HEADER[|HEADER| - 1] == "created_at"
    ensures forall j :: 0 <= j < |KEYS| ==> HEADER[j + 1] == KEYS[j]
  {
  }

  /**
   * The row a confirmation saves: one cell per column of `HEADER`, the user id
   * first, the value of each of the `KEYS` in key order, the creation time last.
   */
  function OrderRow(userId: int, u: UserData, createdAt: string): (r: Row)
    requires MissingKey(u).None?
    ensures |r| == |KEYS| + 2
    ensures r[0] == IntText(userId) && r[|r| - 1] == createdAt
    ensures forall j :: 0 <= j < |KEYS| ==> r[j + 1] == Get(u, KEYS[j]).value
  {
    [IntText(userId), u.category.value, u.product.value, u.quantity.value, u.deliveryDate.value, createdAt]
  }

  /**
   * What holds of `user_data` in every state the handlers can reach from an
   * empty dictionary: a stored quantity is a digit string, a stored date is in
   * `dd-mm-yyyy` form, and each state holds the keys set on the way to it:
   * 'quantity' the product, 'date' also the quantity, 'confirm' all four. A
   * stale product button reaches 'date' without a category, so the date step
   * can still raise on it.
   */
  predicate Consistent(u: UserData) {
    (u.quantity.Some? ==> IsDigitString(u.quantity.value)) &&
    (u.deliveryDate.Some? ==> IsNormalDate(u.deliveryDate.value)) &&
    (u.state == Some(AwaitQuantity) ==> u.product.Some?) &&
    (u.state == Some(AwaitDate) ==> u.product.Some? && u.quantity.Some?) &&
    (u.state == Some(AwaitConfirm) ==> MissingKey(u).None?)
  }

  /** Storing a category keeps a reachable dictionary consistent. */
  lemma CategoryKeepsConsistent(u: UserData, c: string)
    requires Consistent(u)
    ensures Consistent(u.(category := Some(c)))
  {
  }

  /** In a consistent state with every key present, the saved row is a well-formed order row. */
  lemma ConsistentRowIsOrder(userId: int, u: UserData, createdAt: string)
    requires Consistent(u) && MissingKey(u).None?
    ensures IsOrderRow(OrderRow(userId, u, createdAt))
  {
  }

  /**
   * Saving the row of a consistent, complete dictionary into a file this bot
   * created keeps the file well formed: one header, then order rows.
   */
  lemma ConfirmKeepsLogWellFormed(u: UserData, fileExists: bool, rows: seq<Row>, userId: int, createdAt: string)
    requires Consistent(u) && MissingKey(u).None?
    requires WellFormedLog(rows) && (fileExists <==> rows != [])
    ensures WellFormedLog(AfterSave(fileExists, rows, OrderRow(userId, u, createdAt)))
  {
    ConsistentRowIsOrder(userId, u, createdAt);
    SaveKeepsWellFormed(fileExists, rows, OrderRow(userId, u, createdAt));
  }

  /** `start`: the welcome text and one button per category; `user_data` is not read or reset. */
  function Start(): (r: Outcome)
    ensures r.Reply? && r.text == WELCOME
    ensures |r.keyboard| == |CATEGORIES|
    ensures forall i :: 0 <= i < |CATEGORIES| ==>
      |r.keyboard[i]| == 1 &&
      var b := r.keyboard[i][0];
      b.text == CATEGORIES[i].0 && b.callbackData == CallbackData(CATEGORY_TAG, CATEGORIES[i].0) &&
      DecodeCallback(b.callbackData) == Some(CATEGORIES[i].0) &&
      Lookup(CATEGORIES, CATEGORIES[i].0) == Some(CATEGORIES[i].1)
  {
    StartKeyboardMirrorsCatalog();
    Reply(WELCOME, StartKeyboard())
  }

  /** One user's `context.user_data`. */
  class Session {
    var category: Option<string>
    var product: Option<string>
    var state: Option<Phase>
    var quantity: Option<string>
    var deliveryDate: Option<string>

    function Data(): UserData
      reads this
    {
      UserData(category, product, state, quantity, deliveryDate)
    }

    ghost predicate Valid()
      reads this
    {
      Consistent(Data())
    }

    /** A user's dictionary before any handler has run: empty. */
    constructor ()
      ensures Data() == EMPTY && Valid()
    {
      category, product, state, quantity, deliveryDate := None, None, None, None, None;
    }

    /**
     * `category_handler`: stores the decoded category, then looks it up. The
     * store happens before the lookup, so an unknown category is stored and
     * the handler then raises.
     */
    method CategoryHandler(callbackData: string) returns (out: Outcome)
      requires HasTag(callbackData, CATEGORY_TAG)
      modifies this
      ensures var c := callbackData[|CATEGORY_TAG| + 1..];
        Data() == old(Data()).(category := Some(c)) &&
        out == match Lookup(CATEGORIES, c)
          case Some(products) => Reply("Category: " + c + "\nSelect a product:", ProductKeyboard(products))
          case None => KeyError(c)
      ensures old(Valid()) ==> Valid()
    {
      DecodeTagged(CATEGORY_TAG, callbackData);
      var c := DecodeCallback(callbackData).value;
      ghost var before := Data();
      category := Some(c);
      if Consistent(before) {
        CategoryKeepsConsistent(before, c);
        assert Valid();
      }
      out := match Lookup(CATEGORIES, c)
        case Some(products) => Reply("Category: " + c + "\nSelect a product:", ProductKeyboard(products))
        case None => KeyError(c);
    }

    /** `product_handler`: stores the decoded product and moves to the quantity step; the category is not checked. */
    method ProductHandler(callbackData: string) returns (out: Outcome)
      requires HasTag(callbackData, PRODUCT_TAG)
      modifies this
      ensures var p := callbackData[|PRODUCT_TAG| + 1..];
        Data() == old(Data()).(product := Some(p), state := Some(AwaitQuantity)) &&
        out == Reply("Product: " + p + "\nPlease enter the quantity:", [])
      ensures old(Valid()) ==> Valid()
    {
      DecodeTagged(PRODUCT_TAG, callbackData);
      var p := DecodeCallback(callbackData).value;
      product := Some(p);
      state := Some(AwaitQuantity);
      out := Reply("Product: " + p + "\nPlease enter the quantity:", []);
    }

    /**
     * `message_handler`: the stripped text is a quantity in the quantity step,
     * a delivery date in the date step, and ignored otherwise. A rejected
     * input changes nothing. An accepted date is stored before the summary
     * reads the other keys, so a missing key leaves the date stored and the
     * state unchanged.
     */
    method MessageHandler(message: string) returns (out: Outcome)
      modifies this
      ensures old(state) == Some(AwaitQuantity) ==>
        var text := Strip(message);
        if IsDigitString(text) then
          Data() == old(Data()).(quantity := Some(text), state := Some(AwaitDate)) && out == Reply(ASK_DATE, [])
        else
          Data() == old(Data()) && out == Reply(BAD_QUANTITY, [])
      ensures old(state) == Some(AwaitDate) && ParseDate(Strip(message)).None? ==>
        Data() == old(Data()) && out == Reply(BAD_DATE, [])
      ensures old(state) == Some(AwaitDate) && ParseDate(Strip(message)).Some? ==>
        var dated := old(Data()).(deliveryDate := Some(FormatDate(ParseDate(Strip(message)).value)));
        match MissingKey(dated)
        case Some(key) => Data() == dated && out == KeyError(key)
        case None =>
          Data() == dated.(state := Some(AwaitConfirm)) &&
          out == Reply("Please confirm your order:\n" + Summary(dated), CONFIRM_KEYBOARD)
      ensures old(state) !in {Some(AwaitQuantity), Some(AwaitDate)} ==>
        Data() == old(Data()) && out == Reply(USE_START, [])
      ensures old(Valid()) ==> Valid()
    {
      var text := Strip(message);
      if state == Some(AwaitQuantity) {
        out := QuantityStep(text);
      } else if state == Some(AwaitDate) {
        out := DateStep(text);
      } else {
        out := Reply(USE_START, []);
      }
    }

    /** The quantity branch of `message_handler`, on the stripped text. */
    method QuantityStep(text: string) returns (out: Outcome)
      requires state == Some(AwaitQuantity)
      modifies this
      ensures if IsDigitString(text) then
          Data() == old(Data()).(quantity := Some(text), state := Some(AwaitDate)) && out == Reply(ASK_DATE, [])
        else
          Data() == old(Data()) && out == Reply(BAD_QUANTITY, [])
      ensures old(Valid()) ==> Valid()
    {
      if !IsDigitString(text) {
        out := Reply(BAD_QUANTITY, []);
        return;
      }
      quantity := Some(text);
      state := Some(AwaitDate);
      out := Reply(ASK_DATE, []);
    }

    /** The date branch of `message_handler`, on the stripped text. */
    method DateStep(text: string) returns (out: Outcome)
      requires state == Some(AwaitDate)
      modifies this
      ensures ParseDate(text).None? ==> Data() == old(Data()) && out == Reply(BAD_DATE, [])
      ensures ParseDate(text).Some? ==>
        var dated := old(Data()).(deliveryDate := Some(FormatDate(ParseDate(text).value)));
        match MissingKey(dated)
        case Some(key) => Data() == dated && out == KeyError(key)
        case None =>
          Data() == dated.(state := Some(AwaitConfirm)) &&
          out == Reply("Please confirm your order:\n" + Summary(dated), CONFIRM_KEYBOARD)
      ensures old(Valid()) ==> Valid()
    {
      var parsed := ParseDate(text);
      if parsed.None? {
        out := Reply(BAD_DATE, []);
        return;
      }
      var formatted := FormatDate(parsed.value);
      FormatDateIsNormal(parsed.value);
      deliveryDate := Some(formatted);
      var missing := MissingKey(Data());
      if missing.Some? {
        out := KeyError(missing.value);
        return;
      }
      out := Reply("Please confirm your order:\n" + Summary(Data()), CONFIRM_KEYBOARD);
      state := Some(AwaitConfirm);
    }

    /**
     * `confirm_handler`: on 'yes' builds the row from `user_data` and saves it,
     * on anything else saves nothing; either way the dictionary is cleared. The
     * state is not checked: a missing key raises before the save and before the
     * clear, leaving both the dictionary and the file as they were.
     */
    method ConfirmHandler(callbackData: string, userId: int, createdAt: string, log: OrderLog) returns (out: Outcome)
      requires HasTag(callbackData, CONFIRM_TAG)
      requires log.Valid()
      modifies this, log
      ensures log.Valid()
      ensures var choice := callbackData[|CONFIRM_TAG| + 1..];
        if choice != "yes" then
          Data() == EMPTY && unchanged(log) && out == Reply(CANCELED, [])
        else match MissingKey(old(Data()))
          case Some(key) => Data() == old(Data()) && unchanged(log) && out == KeyError(key)
          case None =>
            Data() == EMPTY && log.fileExists && out == Reply(CONFIRMED, []) &&
            log.rows == AfterSave(old(log.fileExists), old(log.rows), OrderRow(userId, old(Data()), createdAt))
      ensures old(Valid()) ==> Valid()
      ensures old(Valid()) && old(state) == Some(AwaitConfirm) ==> out.Reply?
    {
      DecodeTagged(CONFIRM_TAG, callbackData);
      var choice := DecodeCallback(callbackData).value;
      if choice == "yes" {
        var u := Data();
        var missing := MissingKey(u);
        if missing.Some? {
          out := KeyError(missing.value);
          return;
        }
        var row := OrderRow(userId, u, createdAt);
        log.SaveOrder(row);
        out := Reply(CONFIRMED, []);
      } else {
        out := Reply(CANCELED, []);
      }
      category, product, state, quantity, deliveryDate := None, None, None, None, None;
    }
  }
}
