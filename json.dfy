/** A decoded JSON document, as `json.loads` returns it for one entry of a
    pricing catalog's `PriceList`. Objects keep their key/value pairs in
    document order, because the price extraction reads "the first key". */
module Json {
  import opened Wrappers

  datatype Json =
    | JNull
    | JBool(b: bool)
    | JNum(n: real)
    | JStr(s: string)
    | JArr(items: seq<Json>)
    | JObj(fields: seq<(string, Json)>)

  /** The value bound to `key` among `fields`. When a key is repeated the
      last binding wins, as it does in the dict `json.loads` builds. */
  function LastBinding(fields: seq<(string, Json)>, key: string): (r: Option<Json>)
    ensures r.Some? ==>
      exists i :: 0 <= i < |fields| && fields[i] == (key, r.value) &&
        forall j :: i < j < |fields| ==> fields[j].0 != key
    ensures r.None? ==> forall i :: 0 <= i < |fields| ==> fields[i].0 != key
  {
    if |fields| == 0 then None
    else if fields[|fields| - 1].0 == key then Some(fields[|fields| - 1].1)
    else LastBinding(fields[..|fields| - 1], key)
  }

  /** `obj[key]`: `None` where Python raises, that is KeyError when the key
      is absent and TypeError when `obj` is not an object. */
  function Member(j: Json, key: string): Option<Json> {
    if j.JObj? then LastBinding(j.fields, key) else None
  }

  /** `list(obj.keys())[0]`: the key that comes first in the document;
      `None` where Python raises (an empty object, or not an object). */
  function FirstKey(j: Json): Option<string> {
    if j.JObj? && |j.fields| > 0 then Some(j.fields[0].0) else None
  }

  /** A key bound somewhere in an object and never after is read back with
      its value, whatever members stand before it. */
  lemma BoundAmid(before: seq<(string, Json)>, key: string, v: Json, after: seq<(string, Json)>)
    requires forall i :: 0 <= i < |after| ==> after[i].0 != key
    ensures Member(JObj(before + [(key, v)] + after), key) == Some(v)
  {
    var fields := before + [(key, v)] + after;
    var r := LastBinding(fields, key);
    assert fields[|before|] == (key, v);
    assert r.Some?;
    var i :| 0 <= i < |fields| && fields[i] == (key, r.value) &&
      forall j :: i < j < |fields| ==> fields[j].0 != key;
    assert i == |before|;
  }

  /** A key bound at the front of an object and never again is read back with its value. */
  lemma LeadingMember(key: string, v: Json, later: seq<(string, Json)>)
    requires forall i :: 0 <= i < |later| ==> later[i].0 != key
    ensures FirstKey(JObj([(key, v)] + later)) == Some(key)
    ensures Member(JObj([(key, v)] + later), key) == Some(v)
  {
    BoundAmid([], key, v, later);
    assert [] + [(key, v)] + later == [(key, v)] + later;
  }
}
