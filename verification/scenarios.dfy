/**
 * Whole conversations driven through the handlers, starting from an empty
 * dictionary: what ends up in the orders file and in `user_data`.
 */
module Scenarios {
  import opened Wrappers
  import opened Strings
  import opened Callbacks
  import opened Dates
  import opened OrderStore
  import opened Conversation

  /** The text a button for `value` sends back, and what its handler reads out of it. */
  lemma Pressed(tag: string, value: string)
    requires '_' !in tag
    ensures HasTag(CallbackData(tag, value), tag)
    ensures CallbackData(tag, value)[|tag| + 1..] == value
  {
    DecodeEncode(tag, value);
  }

  /** The text of a valid quantity or date message, as the handlers store it. */
  predicate QuantityAccepted(message: string) {
    IsDigitString(Strip(message))
  }

  predicate DateAccepted(message: string) {
    ParseDate(Strip(message)).Some?
  }

  function StoredDate(message: string): string
    requires DateAccepted(message)
  {
    FormatDate(ParseDate(Strip(message)).value)
  }

  // One user action each, with the part of the handler's contract a
  // conversation needs; the scenarios below are sequences of these.

  method PressCategory(session: Session, c: string)
    modifies session
    ensures session.Data() == old(session.Data()).(category := Some(c))
  {
    Pressed(CATEGORY_TAG, c);
    var out := session.CategoryHandler(CallbackData(CATEGORY_TAG, c));
  }

  method PressProduct(session: Session, p: string)
    modifies session
    ensures session.Data() == old(session.Data()).(product := Some(p), state := Some(AwaitQuantity))
  {
    Pressed(PRODUCT_TAG, p);
    var out := session.ProductHandler(CallbackData(PRODUCT_TAG, p));
  }

  method TypeQuantity(session: Session, message: string) returns (reply: string)
    requires session.state == Some(AwaitQuantity)
    modifies session
    ensures QuantityAccepted(message) ==>
      session.Data() == old(session.Data()).(quantity := Some(Strip(message)), state := Some(AwaitDate))
    ensures !QuantityAccepted(message) ==> session.Data() == old(session.Data()) && reply == BAD_QUANTITY
  {
    var out := session.MessageHandler(message);
    reply := out.text;
  }

  method TypeDate(session: Session, message: string) returns (out: Outcome)
    requires session.state == Some(AwaitDate)
    modifies session
    ensures DateAccepted(message) ==>
      var dated := old(session.Data()).(deliveryDate := Some(StoredDate(message)));
      if MissingKey(dated).None? then session.Data() == dated.(state := Some(AwaitConfirm))
      else session.Data() == dated && out == KeyError(MissingKey(dated).value)
    ensures !DateAccepted(message) ==> session.Data() == old(session.Data()) && out == Reply(BAD_DATE, [])
  {
    out := session.MessageHandler(message);
  }

  /** The 'yes' button under the summary. */
  method PressYes(session: Session, userId: int, createdAt: string, log: OrderLog) returns (out: Outcome)
    requires log.Valid()
    modifies session, log
    ensures log.Valid()
    ensures MissingKey(old(session.Data())).None? ==>
      session.Data() == EMPTY && log.fileExists &&
      log.rows == AfterSave(old(log.fileExists), old(log.rows), OrderRow(userId, old(session.Data()), createdAt))
    ensures MissingKey(old(session.Data())).Some? ==>
      session.Data() == old(session.Data()) && log.rows == old(log.rows) && log.fileExists == old(log.fileExists) &&
      out == KeyError(MissingKey(old(session.Data())).value)
  {
    Pressed(CONFIRM_TAG, "yes");
    out := session.ConfirmHandler(CallbackData(CONFIRM_TAG, "yes"), userId, createdAt, log);
  }

  /** Any other button under the summary ('no' in the keyboard the bot sends). */
  method PressOther(session: Session, choice: string, userId: int, createdAt: string, log: OrderLog) returns (out: Outcome)
    requires log.Valid() && choice != "yes"
    modifies session, log
    ensures session.Data() == EMPTY && log.rows == old(log.rows) && log.fileExists == old(log.fileExists)
  {
    Pressed(CONFIRM_TAG, choice);
    out := session.ConfirmHandler(CallbackData(CONFIRM_TAG, choice), userId, createdAt, log);
  }

  /**
   * Category, product, a valid quantity and a valid date, from an empty
   * dictionary: the session waits for confirmation with all four keys set.
   */
  method FillOrder(session: Session, c: string, p: string, quantityMessage: string, dateMessage: string)
    requires session.Data() == EMPTY
    requires QuantityAccepted(quantityMessage) && DateAccepted(dateMessage)
    modifies session
    ensures session.Data() ==
      UserData(Some(c), Some(p), Some(AwaitConfirm), Some(Strip(quantityMessage)), Some(StoredDate(dateMessage)))
  {
    PressCategory(session, c);
    assert session.Data() == UserData(Some(c), None, None, None, None);
    PressProduct(session, p);
    assert session.Data() == UserData(Some(c), Some(p), Some(AwaitQuantity), None, None);
    var reply := TypeQuantity(session, quantityMessage);
    assert session.Data() == UserData(Some(c), Some(p), Some(AwaitDate), Some(Strip(quantityMessage)), None);
    var out := TypeDate(session, dateMessage);
  }

  /**
   * Pick category `c`, product `p`, type a valid quantity and a valid date,
   * confirm: the new orders file holds the header and exactly one order row
   * with the stripped quantity and the normalised date, and the dictionary is
   * empty again. Neither the category nor the product is checked against the
   * catalog, so any names go through.
   */
  method ConfirmedOrder(c: string, p: string, quantityMessage: string, dateMessage: string,
                        userId: int, createdAt: string)
    returns (rows: seq<Row>, data: UserData)
    requires QuantityAccepted(quantityMessage) && DateAccepted(dateMessage)
    ensures |rows| == 2 && rows[0] == HEADER
    ensures rows[1] == [IntText(userId), c, p, Strip(quantityMessage), StoredDate(dateMessage), createdAt]
    ensures data == EMPTY
  {
    var session := new Session();
    FillOrder(session, c, p, quantityMessage, dateMessage);
    var log := new OrderLog(false, []);
    var u := session.Data();
    var out := PressYes(session, userId, createdAt, log);
    rows, data := log.rows, session.Data();
    assert rows[1] == OrderRow(userId, u, createdAt);
  }

  /** The same conversation answered with anything but 'yes': nothing is written, and the dictionary is emptied. */
  method CancelledOrder(c: string, p: string, quantityMessage: string, dateMessage: string,
                        choice: string, userId: int, createdAt: string)
    returns (rows: seq<Row>, fileExists: bool, data: UserData)
    requires QuantityAccepted(quantityMessage) && DateAccepted(dateMessage)
    requires choice != "yes"
    ensures rows == [] && !fileExists
    ensures data == EMPTY
  {
    var session := new Session();
    FillOrder(session, c, p, quantityMessage, dateMessage);
    var log := new OrderLog(false, []);
    var out := PressOther(session, choice, userId, createdAt, log);
    rows, fileExists, data := log.rows, log.fileExists, session.Data();
  }

  /**
   * Rejected input changes nothing: a quantity that is not a digit string
   * keeps the quantity step, and an impossible date keeps the date step.
   */
  method RejectedInputs(c: string, p: string, badQuantity: string, quantityMessage: string, badDate: string)
    returns (afterBadQuantity: UserData, quantityReply: string, afterBadDate: UserData, dateReply: string)
    requires !QuantityAccepted(badQuantity) && QuantityAccepted(quantityMessage) && !DateAccepted(badDate)
    ensures afterBadQuantity == UserData(Some(c), Some(p), Some(AwaitQuantity), None, None)
    ensures afterBadDate == UserData(Some(c), Some(p), Some(AwaitDate), Some(Strip(quantityMessage)), None)
    ensures quantityReply == BAD_QUANTITY && dateReply == BAD_DATE
  {
    var session := new Session();
    PressCategory(session, c);
    assert session.Data() == UserData(Some(c), None, None, None, None);
    PressProduct(session, p);
    assert session.Data() == UserData(Some(c), Some(p), Some(AwaitQuantity), None, None);
    quantityReply := TypeQuantity(session, badQuantity);
    afterBadQuantity := session.Data();
    var reply := TypeQuantity(session, quantityMessage);
    assert session.Data() == afterBadQuantity.(quantity := Some(Strip(quantityMessage)), state := Some(AwaitDate));
    var out := TypeDate(session, badDate);
    afterBadDate := session.Data();
    dateReply := out.text;
  }

  /**
   * A product button pressed on an empty dictionary (an old message, after an
   * earlier order was confirmed): the date step stores the date, then raises
   * on the missing category, and the state stays at the date step.
   */
  method StaleProductButton(p: string, quantityMessage: string, dateMessage: string)
    returns (out: Outcome, data: UserData)
    requires QuantityAccepted(quantityMessage) && DateAccepted(dateMessage)
    ensures out == KeyError("category")
    ensures data == UserData(None, Some(p), Some(AwaitDate), Some(Strip(quantityMessage)), Some(StoredDate(dateMessage)))
  {
    var session := new Session();
    PressProduct(session, p);
    var reply := TypeQuantity(session, quantityMessage);
    out := TypeDate(session, dateMessage);
    data := session.Data();
  }

  /** A confirm button pressed on an empty dictionary raises before anything is written. */
  method StaleConfirmButton(userId: int, createdAt: string, fileExists: bool, rows: seq<Row>)
    returns (out: Outcome, fileExistsAfter: bool, rowsAfter: seq<Row>)
    requires !fileExists ==> rows == []
    ensures out == KeyError("category")
    ensures fileExistsAfter == fileExists && rowsAfter == rows
  {
    var session := new Session();
    var log := new OrderLog(fileExists, rows);
    out := PressYes(session, userId, createdAt, log);
    fileExistsAfter, rowsAfter := log.fileExists, log.rows;
  }

  /**
   * Two orders in a row from the same user: the header is written once, when
   * the file is created, and each confirmation adds one row after it.
   */
  method TwoOrders(c: string, p: string, q1: string, d1: string, q2: string, d2: string,
                   userId: int, t1: string, t2: string)
    returns (rows: seq<Row>)
    requires QuantityAccepted(q1) && DateAccepted(d1) && QuantityAccepted(q2) && DateAccepted(d2)
    ensures |rows| == 3 && rows[0] == HEADER
    ensures rows[1] == [IntText(userId), c, p, Strip(q1), StoredDate(d1), t1]
    ensures rows[2] == [IntText(userId), c, p, Strip(q2), StoredDate(d2), t2]
  {
    var row1 := [IntText(userId), c, p, Strip(q1), StoredDate(d1), t1];
    var row2 := [IntText(userId), c, p, Strip(q2), StoredDate(d2), t2];
    var session := new Session();
    var log := new OrderLog(false, []);
    PlaceOrder(session, log, c, p, q1, d1, userId, t1);
    PlaceOrder(session, log, c, p, q2, d2, userId, t2);
    rows := log.rows;
    TwoSaves(row1, row2);
  }

  /** Two saves into a file that did not exist: the header, then the two rows. */
  lemma TwoSaves(row1: Row, row2: Row)
    ensures var r := AfterSave(true, AfterSave(false, [], row1), row2);
      |r| == 3 && r[0] == HEADER && r[1] == row1 && r[2] == row2
  {
    var rows1 := AfterSave(false, [], row1);
    var r := AfterSave(true, rows1, row2);
    assert r[..2] == rows1;
    assert r[0] == rows1[0] && r[1] == rows1[1];
  }

  /**
   * One full order on an empty dictionary, confirmed with 'yes': the row goes
   * to the file as `save_order` writes it, and the dictionary is empty again.
   */
  method PlaceOrder(session: Session, log: OrderLog, c: string, p: string, quantityMessage: string, dateMessage: string,
                    userId: int, createdAt: string)
    requires session.Data() == EMPTY && log.Valid()
    requires QuantityAccepted(quantityMessage) && DateAccepted(dateMessage)
    modifies session, log
    ensures log.rows == AfterSave(old(log.fileExists), old(log.rows),
                                  [IntText(userId), c, p, Strip(quantityMessage), StoredDate(dateMessage), createdAt])
    ensures log.fileExists && log.Valid() && session.Data() == EMPTY
  {
    FillOrder(session, c, p, quantityMessage, dateMessage);
    var out := PressYes(session, userId, createdAt, log);
  }
}
