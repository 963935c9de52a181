/**
 * src/shared/storage.ts: the legacy accessors over `chrome.storage.local`.
 * The store is a string-keyed map of JSON values.  The asynchronous
 * callback wrappers are not modelled; each accessor is one read or one
 * write of the map, and the defaults the getters apply are stated by the
 * functions below.
 */
module Storage {
  import opened Json

  const ColorsKey: string := "color_hex_code"
  const ExpandedKey: string := "isExpanded"

  lemma KeysDistinct()
    ensures ColorsKey != ExpandedKey
  {
    assert ColorsKey[0] != ExpandedKey[0];
  }

  /**
   * What `getStoredColors` returns for a store: the stored array when the
   * value under `color_hex_code` is an array, and the empty list when it is
   * absent or anything else.
   */
  function ReadColors(data: map<string, Json>): (colors: seq<Json>)
    ensures ColorsKey in data && data[ColorsKey].JArray? ==> colors == data[ColorsKey].items
    ensures !(ColorsKey in data && data[ColorsKey].JArray?) ==> colors == []
  {
    if ColorsKey in data && data[ColorsKey].JArray? then data[ColorsKey].items else []
  }

  /** The JSON array of strings `setStoredColors` stores. */
  function ColorsJson(colors: seq<string>): (items: seq<Json>)
    ensures |items| == |colors|
    ensures forall i :: 0 <= i < |colors| ==> items[i] == JString(colors[i])
  {
    seq(|colors|, i requires 0 <= i < |colors| => JString(colors[i]))
  }

  /** The store after `setStoredColors(colors)`. */
  function WriteColors(data: map<string, Json>, colors: seq<string>): (r: map<string, Json>)
    ensures r.Keys == data.Keys + {ColorsKey}
    ensures r[ColorsKey] == JArray(ColorsJson(colors))
    ensures forall k :: k in data && k != ColorsKey ==> r[k] == data[k]
  {
    data[ColorsKey := JArray(ColorsJson(colors))]
  }

  /** The store after `removeStoredColors()`. */
  function RemoveColors(data: map<string, Json>): (r: map<string, Json>)
    ensures r.Keys == data.Keys - {ColorsKey}
    ensures forall k :: k in r ==> r[k] == data[k]
  {
    data - {ColorsKey}
  }

  /**
   * What `getExpandedState` returns: `data.isExpanded ?? false`, so false
   * when the key is absent or holds `null`, and the stored value, whatever
   * it is, otherwise.
   */
  function ReadExpanded(data: map<string, Json>): (isExpanded: Json)
    ensures ExpandedKey !in data || data[ExpandedKey] == JNull ==> isExpanded == JBool(false)
    ensures ExpandedKey in data && data[ExpandedKey] != JNull ==> isExpanded == data[ExpandedKey]
    ensures isExpanded != JNull
  {
    if ExpandedKey in data && data[ExpandedKey] != JNull then data[ExpandedKey] else JBool(false)
  }

  /** The store after `setExpandedState(isExpanded)`. */
  function WriteExpanded(data: map<string, Json>, isExpanded: bool): (r: map<string, Json>)
    ensures r.Keys == data.Keys + {ExpandedKey}
    ensures r[ExpandedKey] == JBool(isExpanded)
    ensures forall k :: k in data && k != ExpandedKey ==> r[k] == data[k]
  {
    data[ExpandedKey := JBool(isExpanded)]
  }

  /** Reading the colours back after writing them gives what was written. */
  lemma ReadColorsAfterWrite(data: map<string, Json>, colors: seq<string>)
    ensures ReadColors(WriteColors(data, colors)) == ColorsJson(colors)
  {
  }

  /** After removal the colours read as the empty list. */
  lemma ReadColorsAfterRemove(data: map<string, Json>)
    ensures ReadColors(RemoveColors(data)) == []
  {
  }

  /** Reading the flag back after writing it gives what was written. */
  lemma ReadExpandedAfterWrite(data: map<string, Json>, isExpanded: bool)
    ensures ReadExpanded(WriteExpanded(data, isExpanded)) == JBool(isExpanded)
  {
  }

  /** Writing or removing the colours leaves the flag alone, and writing the flag leaves the colours alone. */
  lemma KeysIndependent(data: map<string, Json>, colors: seq<string>, isExpanded: bool)
    ensures ReadExpanded(WriteColors(data, colors)) == ReadExpanded(data)
    ensures ReadExpanded(RemoveColors(data)) == ReadExpanded(data)
    ensures ReadColors(WriteExpanded(data, isExpanded)) == ReadColors(data)
  {
    KeysDistinct();
  }

  /** Removing twice is removing once. */
  lemma RemoveColorsIdempotent(data: map<string, Json>)
    ensures RemoveColors(RemoveColors(data)) == RemoveColors(data)
  {
  }

  /** A value that is not an array reads as the empty list. */
  lemma ReadColorsIgnoresNonArrays(data: map<string, Json>, v: Json)
    requires !v.JArray?
    ensures ReadColors(data[ColorsKey := v]) == []
  {
  }

  /** `chrome.storage.local` as far as these accessors use it. */
  class LegacyStore {
    var data: map<string, Json>

    constructor (initial: map<string, Json>)
      ensures data == initial
    {
      data := initial;
    }

    /** `getStoredColors`. */
    method GetStoredColors() returns (colors: seq<Json>)
      ensures colors == ReadColors(data)
    {
      var stored := if ColorsKey in data then data[ColorsKey] else JNull;
      if stored.JArray? {
        colors := stored.items;
      } else {
        colors := [];
      }
    }

    /** `setStoredColors`. */
    method SetStoredColors(colors: seq<string>)
      modifies this
      ensures data == WriteColors(old(data), colors)
    {
      data := data[ColorsKey := JArray(ColorsJson(colors))];
    }

    /** `removeStoredColors`. */
    method RemoveStoredColors()
      modifies this
      ensures data == RemoveColors(old(data))
    {
      data := data - {ColorsKey};
    }

    /** `getExpandedState`. */
    method GetExpandedState() returns (isExpanded: Json)
      ensures isExpanded == ReadExpanded(data)
    {
      if ExpandedKey in data && data[ExpandedKey] != JNull {
        isExpanded := data[ExpandedKey];
      } else {
        isExpanded := JBool(false);
      }
    }

    /** `setExpandedState`. */
    method SetExpandedState(isExpanded: bool)
      modifies this
      ensures data == WriteExpanded(old(data), isExpanded)
    {
      data := data[ExpandedKey := JBool(isExpanded)];
    }
  }
}
