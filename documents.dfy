/** The `toJSON` transform that the client, category, service, price-tier,
    price-sheet and quote schemas share: the serialised document exposes its
    identity as `id` and hides the driver's `_id` and `__v` fields. A
    document is seen here as the map from field names to values that the
    transform receives as `ret`. */
module Documents {

  /** `ret.id = ret._id; delete ret._id; delete ret.__v`. When `_id` is
      missing, `id` becomes undefined, which serialisation omits. */
  function ToJson<V>(ret: map<string, V>): (r: map<string, V>)
    ensures r.Keys == (ret.Keys - {"_id", "__v", "id"}) + (if "_id" in ret then {"id"} else {})
    ensures "_id" in ret ==> r["id"] == ret["_id"]
    ensures forall k :: k in ret && k != "_id" && k != "__v" && k != "id" ==> r[k] == ret[k]
  {
    var rest := ret - {"_id", "__v", "id"};
    if "_id" in ret then rest["id" := ret["_id"]] else rest
  }

  /** A serialised document carries no driver fields, and serialising it
      again keeps every field except `id`, which has no `_id` to come from. */
  lemma ToJsonTwice<V>(ret: map<string, V>)
    ensures "_id" !in ToJson(ret) && "__v" !in ToJson(ret)
    ensures ToJson(ToJson(ret)) == ToJson(ret) - {"id"}
  {
    var once := ToJson(ret);
    assert ToJson(once).Keys == (once - {"id"}).Keys;
  }
}
