/** The signed-in user of the controller layer and its JSON form. */
module UserModel {
  import opened Wrappers
  import opened JsValue

  /** The three constructor fields. `fromJson` stores whatever non-nullish
      value the JSON holds, so the fields are values, not just strings. */
  datatype User = User(fullName: Value, userId: Value, sid: Value)

  /** `User.fromJson(json)`: each field `?? ''`. Reading a property of a
      null or undefined `json` throws (None). */
  function FromJson(json: Value): (u: Option<User>)
    ensures u.None? <==> Nullish(json)
    ensures u.Some? ==> !Nullish(u.value.fullName) && !Nullish(u.value.userId) && !Nullish(u.value.sid)
  {
    if Nullish(json) then None
    else Some(User(Coalesce(Get(json, "full_name"), Str("")),
                   Coalesce(Get(json, "user_id"), Str("")),
                   Coalesce(Get(json, "sid"), Str(""))))
  }

  /** `user.toJson()` */
  function ToJson(u: User): (j: Value)
    ensures j.Obj? && j.fields.Keys == {"full_name", "user_id", "sid"}
  {
    Obj(map["full_name" := u.fullName, "user_id" := u.userId, "sid" := u.sid])
  }

  predicate NoNullishField(u: User) {
    !Nullish(u.fullName) && !Nullish(u.userId) && !Nullish(u.sid)
  }

  /** Serialising and reading back gives the same user, for every user whose
      fields are set (every user `fromJson` or the controller builds). */
  lemma FromJsonToJson(u: User)
    requires NoNullishField(u)
    ensures FromJson(ToJson(u)) == Some(u)
  {
  }

  /** Reading and serialising keeps the three keys where the JSON had a
      non-nullish value, writes '' where it had none, and drops every other
      key. */
  lemma ToJsonFromJson(json: Value)
    requires json.Obj?
    ensures var j := ToJson(FromJson(json).value);
      && j.fields.Keys == {"full_name", "user_id", "sid"}
      && forall k :: k in j.fields ==>
           j.fields[k] == (if k in json.fields && !Nullish(json.fields[k]) then json.fields[k] else Str(""))
  {
  }

  /** `toJson` after `fromJson` is a fixed point. */
  lemma NormaliseOnce(json: Value)
    requires !Nullish(json)
    ensures FromJson(ToJson(FromJson(json).value)) == FromJson(json)
  {
    FromJsonToJson(FromJson(json).value);
  }
}
