/**
 * The Asset record and its JSON form, as Go's encoding/json reads and
 * writes it for the struct tags of `Asset` (asset_id, color, size, owner,
 * appraisedValue). JSON is taken at the level of the value the text parses
 * to; the text itself is not modelled.
 */
module Assets {
  import opened Wrappers

  /** Go's `int` on the 64-bit platforms the ledger peers run on. */
  newtype GoInt = x: int | -0x8000_0000_0000_0000 <= x < 0x8000_0000_0000_0000

  /** A parsed JSON value. `JFraction` is a number literal with a fraction or exponent part. */
  datatype Json =
    | JNull
    | JBool(b: bool)
    | JInt(n: int)
    | JFraction
    | JString(s: string)
    | JArray(items: seq<Json>)
    | JObject(members: map<string, Json>)

  /** JSON text as the value it parses to, or None when it is not well-formed JSON. */
  type JsonText = Option<Json>

  datatype Asset = Asset(id: string, color: string, size: GoInt, owner: string, appraisedValue: GoInt)

  /** The Go zero value of an Asset, which Unmarshal starts from. */
  const ZeroAsset := Asset("", "", 0, "", 0)

  /** The errors the operations return; the two existence errors name the offending asset id. */
  datatype Error = DecodeError | AlreadyExists(id: string) | NotFound(id: string)

  /** json.Marshal of an Asset: an object with one member per struct tag. It never fails. */
  function Marshal(a: Asset): JsonText
  {
    Some(JObject(map[
      "asset_id" := JString(a.id),
      "color" := JString(a.color),
      "size" := JInt(a.size as int),
      "owner" := JString(a.owner),
      "appraisedValue" := JInt(a.appraisedValue as int)]))
  }

  /** A string field: absent or null leaves the zero value, a string is taken, anything else is a type error (None). */
  function StringMember(members: map<string, Json>, tag: string): Option<string>
  {
    if tag !in members then Some("")
    else match members[tag]
      case JNull => Some("")
      case JString(s) => Some(s)
      case _ => None
  }

  /** An int field: absent or null leaves 0, an integer literal in Go's int range is taken, anything else is a type error. */
  function IntMember(members: map<string, Json>, tag: string): Option<GoInt>
  {
    if tag !in members then Some(0 as GoInt)
    else match members[tag]
      case JNull => Some(0 as GoInt)
      case JInt(n) =>
        if -0x8000_0000_0000_0000 <= n < 0x8000_0000_0000_0000 then Some(n as GoInt) else None
      case _ => None
  }

  /**
   * json.Unmarshal into a zero Asset. Text that is not JSON, a top-level value
   * other than an object or null, and a member of the wrong type are errors;
   * members the object leaves out keep their zero value; other members are ignored.
   */
  function Unmarshal(text: JsonText): Result<Asset, Error>
  {
    match text
    case None => Err(DecodeError)
    case Some(JNull) => Ok(ZeroAsset)
    case Some(JObject(members)) =>
      var id := StringMember(members, "asset_id");
      var color := StringMember(members, "color");
      var size := IntMember(members, "size");
      var owner := StringMember(members, "owner");
      var value := IntMember(members, "appraisedValue");
      if id.Some? && color.Some? && size.Some? && owner.Some? && value.Some? then
        Ok(Asset(id.value, color.value, size.value, owner.value, value.value))
      else
        Err(DecodeError)
    case Some(_) => Err(DecodeError)
  }

  /** Decoding what Marshal wrote gives back the record: encoding is lossless. */
  lemma UnmarshalMarshal(a: Asset)
    ensures Unmarshal(Marshal(a)) == Ok(a)
  {
  }

  /** Text that is not an object or null is rejected whatever it holds. */
  lemma UnmarshalRejectsNonObject(text: JsonText)
    requires text.Some? ==> !(text.value.JObject? || text.value.JNull?)
    ensures Unmarshal(text) == Err(DecodeError)
  {
  }

  /** A request that names only an id decodes to that id with every other field at its zero value. */
  lemma UnmarshalIdOnly(id: string)
    ensures Unmarshal(Some(JObject(map["asset_id" := JString(id)]))) == Ok(ZeroAsset.(id := id))
  {
  }

  /**
   * An object whose known members all have the right types decodes; each field
   * is the member given, or the zero value where the object leaves it out.
   */
  lemma UnmarshalObject(members: map<string, Json>)
    requires forall tag :: tag in members && tag in {"asset_id", "color", "owner"} ==> members[tag].JString?
    requires forall tag :: tag in members && tag in {"size", "appraisedValue"} ==>
               members[tag].JInt? && -0x8000_0000_0000_0000 <= members[tag].n < 0x8000_0000_0000_0000
    ensures Unmarshal(Some(JObject(members))).Ok?
    ensures var a := Unmarshal(Some(JObject(members))).value;
      && a.id == (if "asset_id" in members then members["asset_id"].s else "")
      && a.color == (if "color" in members then members["color"].s else "")
      && a.size as int == (if "size" in members then members["size"].n else 0)
      && a.owner == (if "owner" in members then members["owner"].s else "")
      && a.appraisedValue as int == (if "appraisedValue" in members then members["appraisedValue"].n else 0)
  {
    assert "asset_id" in {"asset_id", "color", "owner"};
    assert "color" in {"asset_id", "color", "owner"};
    assert "owner" in {"asset_id", "color", "owner"};
    assert "size" in {"size", "appraisedValue"};
    assert "appraisedValue" in {"size", "appraisedValue"};
  }
}
