/**
 * The static catalog (`CATEGORIES`) and the inline keyboards built from it:
 * one button per row, labelled with the name and carrying `tag_name` as its
 * callback data.
 */
module Catalog {
  import opened Wrappers
  import opened Callbacks

  /** An inline button: the text shown and the callback data sent back when pressed. */
  datatype Button = Button(text: string, callbackData: string)

  /** Rows of buttons, in display order. */
  type Keyboard = seq<seq<Button>>

  /** Category name and its products, in the dictionary's insertion order. */
  type Entry = (string, seq<string>)

  const CATEGORIES: seq<Entry> := [
    ("Clothing", ["T-Shirt", "Jeans", "Jacket"]),
    ("Electronics", ["Smartphone", "Laptop", "Headphones"])
  ]

  /** Iterating a dictionary: its keys, in insertion order. */
  function Names(entries: seq<Entry>): (names: seq<string>)
    ensures |names| == |entries|
    ensures forall i :: 0 <= i < |entries| ==> names[i] == entries[i].0
  {
    if entries == [] then [] else [entries[0].0] + Names(entries[1..])
  }

  predicate DistinctNames(entries: seq<Entry>) {
    forall i, j :: 0 <= i < j < |entries| ==> entries[i].0 != entries[j].0
  }

  /** Dictionary lookup `entries[name]`; None where Python raises KeyError. */
  function Lookup(entries: seq<Entry>, name: string): (r: Option<seq<string>>)
    ensures r.None? <==> name !in Names(entries)
    ensures r.Some? ==> exists i :: 0 <= i < |entries| && entries[i] == (name, r.value)
  {
    if entries == [] then None
    else if entries[0].0 == name then Some(entries[0].1)
    else
      var r := Lookup(entries[1..], name);
      assert r.Some? ==> exists i :: 1 <= i < |entries| && entries[i] == (name, r.value) by {
        if r.Some? {
          var i :| 0 <= i < |entries[1..]| && entries[1..][i] == (name, r.value);
          assert entries[i + 1] == (name, r.value);
        }
      }
      r
  }

  /** With distinct keys, looking up the i-th key gives the i-th product list. */
  lemma {:induction false} LookupAt(entries: seq<Entry>, i: nat)
    requires DistinctNames(entries)
    requires i < |entries|
    ensures Lookup(entries, entries[i].0) == Some(entries[i].1)
  {
    if i > 0 {
      assert entries[0].0 != entries[i].0;
      LookupAt(entries[1..], i - 1);
    }
  }

  /** A keyboard row holding the one button for `item`: labelled with it, and sending back `tag_item`. */
  predicate ButtonFor(row: seq<Button>, tag: string, item: string) {
    |row| == 1 && row[0].text == item && row[0].callbackData == CallbackData(tag, item) &&
    HasTag(row[0].callbackData, tag) && DecodeCallback(row[0].callbackData) == Some(item)
  }

  lemma ButtonForItem(tag: string, item: string)
    requires '_' !in tag
    ensures ButtonFor([Button(item, CallbackData(tag, item))], tag, item)
  {
    DecodeEncode(tag, item);
  }

  /** `[[InlineKeyboardButton(x, callback_data=f'{tag}_{x}')] for x in items]`. */
  function ButtonColumn(tag: string, items: seq<string>): (rows: Keyboard)
    requires '_' !in tag
    ensures |rows| == |items|
    ensures forall i :: 0 <= i < |items| ==> ButtonFor(rows[i], tag, items[i])
  {
    if items == [] then []
    else
      ButtonForItem(tag, items[0]);
      [[Button(items[0], CallbackData(tag, items[0]))]] + ButtonColumn(tag, items[1..])
  }

  /** The keyboard `start` sends: one button per category. */
  function StartKeyboard(): Keyboard {
    TagsHaveNoUnderscore();
    ButtonColumn(CATEGORY_TAG, Names(CATEGORIES))
  }

  /** The keyboard `category_handler` sends for a known category: one button per product. */
  function ProductKeyboard(products: seq<string>): Keyboard {
    ButtonColumn(PRODUCT_TAG, products)
  }

  /**
   * The start keyboard lists every category in catalog order, and pressing
   * the i-th button sends back the i-th category name, whose lookup succeeds.
   */
  lemma StartKeyboardMirrorsCatalog()
    ensures |StartKeyboard()| == |CATEGORIES|
    ensures forall i :: 0 <= i < |CATEGORIES| ==>
      var b := StartKeyboard()[i][0];
      b.text == CATEGORIES[i].0 && HasTag(b.callbackData, CATEGORY_TAG) &&
      DecodeCallback(b.callbackData) == Some(CATEGORIES[i].0) &&
      Lookup(CATEGORIES, CATEGORIES[i].0) == Some(CATEGORIES[i].1)
  {
    forall i | 0 <= i < |CATEGORIES| ensures Lookup(CATEGORIES, CATEGORIES[i].0) == Some(CATEGORIES[i].1) {
      LookupAt(CATEGORIES, i);
    }
  }

  /** The catalog's shape: distinct category names, each with a non-empty list of distinct, non-empty product names. */
  lemma CatalogWellFormed()
    ensures DistinctNames(CATEGORIES)
    ensures forall i :: 0 <= i < |CATEGORIES| ==> CATEGORIES[i].0 != "" && |CATEGORIES[i].1| > 0
    ensures forall i, j :: 0 <= i < |CATEGORIES| && 0 <= j < |CATEGORIES[i].1| ==> CATEGORIES[i].1[j] != ""
    ensures forall i, j, k :: 0 <= i < |CATEGORIES| && 0 <= j < k < |CATEGORIES[i].1| ==>
      CATEGORIES[i].1[j] != CATEGORIES[i].1[k]
  {
  }

  /** Every product belongs to exactly one category. */
  lemma ProductsInOneCategory()
    ensures forall i, j, p, q :: 0 <= i < j < |CATEGORIES| && 0 <= p < |CATEGORIES[i].1| && 0 <= q < |CATEGORIES[j].1| ==>
      CATEGORIES[i].1[p] != CATEGORIES[j].1[q]
  {
  }
}
