/**
 * The plugin's `metaObject` as a value: an insertion-ordered dictionary from
 * normalised field name to cleaned value, what one collection does to it,
 * and the name/value list that one push appends to a hit.
 */
module MetaData {
  import opened Wrappers
  import opened JsStrings
  import opened Sanitizer

  /**
   * A JavaScript object used as a dictionary: `keys` is its enumeration
   * order (first insertion), `values` its contents.
   */
  datatype Meta = Meta(keys: seq<string>, values: map<string, string>)

  const EmptyMeta := Meta([], map[])

  /** Keys are listed once each, and exactly the keys that have a value are listed. */
  ghost predicate WellFormed(m: Meta) {
    && (forall i, j :: 0 <= i < j < |m.keys| ==> m.keys[i] != m.keys[j])
    && (forall k :: k in m.values <==> k in m.keys)
  }

  /** `metaObject[k] = v`: a new key goes to the end of the order, an existing one keeps its place. */
  function Put(m: Meta, k: string, v: string): (r: Meta)
    ensures WellFormed(m) ==> WellFormed(r)
    ensures m.keys <= r.keys
    ensures r.values.Keys == m.values.Keys + {k} && r.values[k] == v
    ensures forall k' :: k' in m.values && k' != k ==> r.values[k'] == m.values[k']
    ensures WellFormed(m) ==> |r.keys| == |m.keys| + (if k in m.values then 0 else 1)
  {
    if k in m.values then Meta(m.keys, m.values[k := v])
    else Meta(m.keys + [k], m.values[k := v])
  }

  // ---------------------------------------------------------------------
  // The page data context
  // ---------------------------------------------------------------------

  /** A property value of `ListData`: a string, or anything else. */
  datatype JsValue = Str(s: string) | NonString

  /** A `{prefix}FormCtx` page global; `listData` holds the own properties of its `ListData` in enumeration order. */
  datatype FormCtx = FormCtx(listData: seq<(string, JsValue)>)

  /**
   * What collection reads from the page: the id of the first
   * `div[id$='ClientFormPlaceholder']`, if there is one, and the page
   * globals by name.
   */
  datatype Page = Page(placeholderId: Option<string>, globals: map<string, FormCtx>)

  /** `id.substring(0, 4)`. */
  function Prefix(id: string): (r: string)
    ensures |r| <= 4 && |r| <= |id| && r == id[..|r|]
    ensures |id| >= 4 ==> |r| == 4
    ensures |id| < 4 ==> r == id
  {
    if |id| <= 4 then id else id[..4]
  }

  function FormCtxName(prefix: string): string {
    prefix + "FormCtx"
  }

  const ErrorKey := "meta_error"

  function ErrorMessage(prefix: string): string {
    "webtrends.esBranding.js - 'window." + prefix + "FormCtx' object not found.  Cannot collect meta data."
  }

  /** Only non-empty string values are stored. */
  predicate Qualifies(e: (string, JsValue)) {
    e.1.Str? && e.1.s != ""
  }

  /** The entry `e` stores a value under key `k`. */
  predicate Writes(e: (string, JsValue), k: string) {
    Qualifies(e) && NormalizeKey(e.0) == k
  }

  /** The value stored for a qualifying entry. */
  function StoredValue(e: (string, JsValue)): (r: string)
    requires Qualifies(e)
    ensures IsClean(r)
  {
    Clean(ResolvedAccount(e.1.s))
  }

  /** One iteration of the `for (var prop in ListData)` loop. */
  function StoreEntry(m: Meta, e: (string, JsValue)): (r: Meta)
    ensures !Qualifies(e) ==> r == m
  {
    if Qualifies(e) then Put(m, NormalizeKey(e.0), StoredValue(e)) else m
  }

  /** The loop over all of `ListData`, entry after entry. */
  function CollectList(m: Meta, es: seq<(string, JsValue)>): (r: Meta)
    ensures WellFormed(m) ==> WellFormed(r)
    ensures m.keys <= r.keys && m.values.Keys <= r.values.Keys
    ensures forall k :: k in r.values ==> (k in m.values && r.values[k] == m.values[k]) || IsClean(r.values[k])
  {
    if es == [] then m
    else StoreEntry(CollectList(m, es[..|es| - 1]), es[|es| - 1])
  }

  /** The keys after collection: the old ones and those of the qualifying entries, and no others. */
  lemma {:induction false} CollectListKeys(m: Meta, es: seq<(string, JsValue)>, k: string)
    ensures k in CollectList(m, es).values <==> k in m.values || exists i :: 0 <= i < |es| && Writes(es[i], k)
  {
    if es != [] {
      var init := es[..|es| - 1];
      CollectListKeys(m, init, k);
      assert forall i :: 0 <= i < |init| ==> init[i] == es[i];
      if Writes(es[|es| - 1], k) {
        assert exists i :: 0 <= i < |es| && Writes(es[i], k);
      }
    }
  }

  /** Keys that no entry writes keep their value, or stay absent. */
  lemma {:induction false} CollectListUntouched(m: Meta, es: seq<(string, JsValue)>, k: string)
    requires forall i :: 0 <= i < |es| ==> !Writes(es[i], k)
    ensures k in CollectList(m, es).values <==> k in m.values
    ensures k in m.values ==> CollectList(m, es).values[k] == m.values[k]
  {
    if es != [] {
      var init := es[..|es| - 1];
      assert forall i :: 0 <= i < |init| ==> init[i] == es[i];
      CollectListUntouched(m, init, k);
    }
  }

  /**
   * A repeated key overwrites: the key of entry `i` ends up holding that
   * entry's value when no later entry writes the same key.
   */
  lemma {:induction false} CollectListLastWriteWins(m: Meta, es: seq<(string, JsValue)>, i: nat)
    requires i < |es| && Qualifies(es[i])
    requires forall j :: i < j < |es| ==> !Writes(es[j], NormalizeKey(es[i].0))
    ensures NormalizeKey(es[i].0) in CollectList(m, es).values
    ensures CollectList(m, es).values[NormalizeKey(es[i].0)] == StoredValue(es[i])
  {
    var init := es[..|es| - 1];
    if i < |es| - 1 {
      assert init[i] == es[i];
      forall j | i < j < |init| ensures !Writes(init[j], NormalizeKey(init[i].0)) {
        assert init[j] == es[j];
      }
      CollectListLastWriteWins(m, init, i);
    }
  }

  /**
   * One `collectData()` call. No placeholder element: nothing changes. No
   * `{prefix}FormCtx` global: only the error entry is set. Otherwise
   * `ListData` is collected into the existing object, which is never reset.
   */
  function Collect(m: Meta, page: Page): (r: Meta)
    ensures WellFormed(m) ==> WellFormed(r)
    ensures m.keys <= r.keys && m.values.Keys <= r.values.Keys
    ensures page.placeholderId.None? ==> r == m
    ensures page.placeholderId.Some? && FormCtxName(Prefix(page.placeholderId.value)) !in page.globals ==>
      r.values == m.values[ErrorKey := ErrorMessage(Prefix(page.placeholderId.value))]
  {
    match page.placeholderId
    case None => m
    case Some(id) =>
      var prefix := Prefix(id);
      var name := FormCtxName(prefix);
      if name in page.globals then CollectList(m, page.globals[name].listData)
      else Put(m, ErrorKey, ErrorMessage(prefix))
  }

  /** With the data context present, collection is the loop over `ListData`, and every value is untouched or cleaned. */
  lemma CollectFromContext(m: Meta, page: Page, id: string)
    requires page.placeholderId == Some(id) && FormCtxName(Prefix(id)) in page.globals
    ensures var es := page.globals[FormCtxName(Prefix(id))].listData;
      var r := Collect(m, page);
      && r == CollectList(m, es)
      && (forall k :: k in r.values ==> (k in m.values && r.values[k] == m.values[k]) || IsClean(r.values[k]))
  {
  }

  // ---------------------------------------------------------------------
  // The pushed parameters
  // ---------------------------------------------------------------------

  const ParamPrefix := "WT.shp_doc_"

  /** The value pushed for key `k`: empty when clearing, then truncated. */
  function PushedValue(values: map<string, string>, k: string, clear: bool, limit: int): (r: string)
    requires k in values
    ensures clear && limit >= 0 ==> r == ""
    ensures !clear && |values[k]| <= limit ==> r == values[k]
  {
    Truncate(if clear then "" else values[k], limit)
  }

  /**
   * What one `pushData(multiTrackObject, clear)` appends to `argsa`: for
   * each key in order, the parameter name and then its value.
   */
  function Payload(keys: seq<string>, values: map<string, string>, clear: bool, limit: int): (r: seq<string>)
    requires forall k :: k in keys ==> k in values
    ensures |r| == 2 * |keys|
  {
    if keys == [] then []
    else
      var init := keys[..|keys| - 1];
      var last := keys[|keys| - 1];
      Payload(init, values, clear, limit) + [ParamPrefix + last, PushedValue(values, last, clear, limit)]
  }

  /** Pair `i` of the payload is the prefixed name of key `i` and that key's pushed value. */
  lemma {:induction false} PayloadAt(keys: seq<string>, values: map<string, string>, clear: bool, limit: int, i: nat)
    requires forall k :: k in keys ==> k in values
    requires i < |keys|
    ensures Payload(keys, values, clear, limit)[2 * i] == ParamPrefix + keys[i]
    ensures Payload(keys, values, clear, limit)[2 * i + 1] == PushedValue(values, keys[i], clear, limit)
  {
    var init := keys[..|keys| - 1];
    if i < |init| {
      assert init[i] == keys[i];
      PayloadAt(init, values, clear, limit, i);
    }
  }

  /** Pushing one more key appends its name and value to the payload. */
  lemma PayloadAppend(keys: seq<string>, k: string, values: map<string, string>, clear: bool, limit: int)
    requires forall k' :: k' in keys ==> k' in values
    requires k in values
    ensures Payload(keys + [k], values, clear, limit)
      == Payload(keys, values, clear, limit) + [ParamPrefix + k, PushedValue(values, k, clear, limit)]
  {
    assert (keys + [k])[..|keys|] == keys;
  }

  /** Clearing emits every name with an empty value, provided the limit is not negative. */
  lemma PayloadCleared(keys: seq<string>, values: map<string, string>, limit: int, i: nat)
    requires forall k :: k in keys ==> k in values
    requires limit >= 0 && i < |keys|
    ensures Payload(keys, values, true, limit)[2 * i] == ParamPrefix + keys[i]
    ensures Payload(keys, values, true, limit)[2 * i + 1] == ""
  {
    PayloadAt(keys, values, true, limit, i);
  }

  /** With a negative limit even a cleared value is longer than the limit and comes out as "...". */
  lemma PayloadClearedNegativeLimit(keys: seq<string>, values: map<string, string>, limit: int, i: nat)
    requires forall k :: k in keys ==> k in values
    requires limit < 0 && i < |keys|
    ensures Payload(keys, values, true, limit)[2 * i + 1] == "..."
  {
    PayloadAt(keys, values, true, limit, i);
  }

  /** Without clearing, a value within the limit is pushed unchanged. */
  lemma PayloadShortValue(keys: seq<string>, values: map<string, string>, limit: int, i: nat)
    requires forall k :: k in keys ==> k in values
    requires i < |keys| && |values[keys[i]]| <= limit
    ensures Payload(keys, values, false, limit)[2 * i + 1] == values[keys[i]]
  {
    PayloadAt(keys, values, false, limit, i);
  }
}
