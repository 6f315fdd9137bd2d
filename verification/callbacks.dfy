/**
 * Callback data carried by inline buttons: a tag, an underscore, then a value
 * (`category_Clothing`, `product_Jeans`, `confirm_yes`). The handlers recover
 * the value with `split('_', 1)[1]`.
 */
module Callbacks {
  import opened Wrappers
  import opened Strings

  const CATEGORY_TAG := "category"
  const PRODUCT_TAG := "product"
  const CONFIRM_TAG := "confirm"

  lemma TagsHaveNoUnderscore()
    ensures '_' !in CATEGORY_TAG && '_' !in PRODUCT_TAG && '_' !in CONFIRM_TAG
  {
  }

  /** The f-string `f'{tag}_{value}'` written into a button. */
  function CallbackData(tag: string, value: string): string {
    tag + "_" + value
  }

  /** True when `data` starts with `tag` followed by an underscore: what the pattern `^tag_` routes on. */
  predicate HasTag(data: string, tag: string) {
    |data| > |tag| && data[..|tag| + 1] == tag + "_"
  }

  /**
   * `data.split('_', 1)[1]`: everything after the first underscore. With no
   * underscore the split has one piece and indexing it at 1 raises, modelled as None.
   */
  function DecodeCallback(data: string): (r: Option<string>)
    ensures r.None? <==> '_' !in data
    ensures r.Some? ==>
      var n := |data| - |r.value|;
      0 < n && data[n - 1] == '_' && '_' !in data[..n - 1] && data[n..] == r.value
  {
    match FirstIndex(data, '_')
    case None => None
    case Some(i) => Some(data[i + 1..])
  }

  /** Data routed on a tag without underscores decodes to what follows the tag and its underscore. */
  lemma DecodeTagged(tag: string, data: string)
    requires '_' !in tag
    requires HasTag(data, tag)
    ensures DecodeCallback(data) == Some(data[|tag| + 1..])
  {
    assert data[|tag|] == '_';
    assert data[..|tag|] == tag;
  }

  /**
   * Decoding inverts encoding, whatever the value holds (underscores included),
   * as long as the tag has no underscore of its own.
   */
  lemma DecodeEncode(tag: string, value: string)
    requires '_' !in tag
    ensures HasTag(CallbackData(tag, value), tag)
    ensures DecodeCallback(CallbackData(tag, value)) == Some(value)
  {
    var data := CallbackData(tag, value);
    assert data[..|tag| + 1] == tag + "_";
    DecodeTagged(tag, data);
    assert data[|tag| + 1..] == value;
  }

  /** Every value of a tagged callback is the encoding of its decoded value: the encoding is onto. */
  lemma EncodeDecode(tag: string, data: string)
    requires '_' !in tag
    requires HasTag(data, tag)
    ensures DecodeCallback(data).Some?
    ensures CallbackData(tag, DecodeCallback(data).value) == data
  {
    DecodeTagged(tag, data);
    assert data == data[..|tag| + 1] + data[|tag| + 1..];
  }
}
