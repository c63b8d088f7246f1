/** The key-value store the secrets come from, and the conversion the vault backend applies to what it reads. */
module Stores {
  import opened Common
  import opened Resources

  datatype StoreError = NotFound | InvalidData

  /** A store object is a possibly nil map from field names to bytes. */
  type Object = Option<Data>

  type Contents = map<string, Object>

  function GetData(obj: Object): Data {
    if obj.None? then map[] else obj.value
  }

  function Get(contents: Contents, key: string): Result<Object, StoreError> {
    if key in contents then Ok(contents[key]) else Err(NotFound)
  }

  /** A value as the vault client hands it over: a byte string, or something of another dynamic type. */
  datatype Value = ByteString(bytes: Bytes) | OtherType(typeName: string)

  /**
   All or nothing: every value is a byte string and the object holds exactly the input's pairs, or the
   conversion fails. The order in which the loop visits the keys shows in neither case.
   */
  method DataToObject(data: map<string, Value>) returns (r: Result<Object, StoreError>)
    ensures r.Ok? <==> forall k :: k in data ==> data[k].ByteString?
    ensures r.Ok? ==> r.value.Some? && GetData(r.value) == r.value.value && r.value.value.Keys == data.Keys
    ensures r.Ok? ==> forall k :: k in data ==> data[k] == ByteString(r.value.value[k])
    ensures r.Err? ==> r.error == InvalidData
  {
    var o: Data := map[];
    var unseen := data.Keys;
    while unseen != {}
      invariant unseen <= data.Keys
      invariant o.Keys == data.Keys - unseen
      invariant forall k :: k in o ==> data[k] == ByteString(o[k])
      decreases unseen
    {
      var key :| key in unseen;
      match data[key]
      case OtherType(_) =>
        return Err(InvalidData);
      case ByteString(bytes) =>
        o := o[key := bytes];
        unseen := unseen - {key};
    }
    return Ok(Some(o));
  }
}
