/**
 * expectData (index.js:241-250): a service handler checks that the
 * message data has every required property, in order, and fails on the
 * first one missing.
 */
module MessageData {
  import opened Wrappers
  import opened JsValues

  /** The own properties of `msg.data`. */
  type Data = map<string, Value>

  /** The position of the first required field the data lacks, if any. */
  function FirstMissing(fields: seq<string>, data: Data): (r: Option<nat>)
    ensures r.Some? ==> r.value < |fields| && fields[r.value] !in data
    ensures r.Some? ==> forall j :: 0 <= j < r.value ==> fields[j] in data
    ensures r.None? <==> forall j :: 0 <= j < |fields| ==> fields[j] in data
  {
    if fields == [] then None
    else if fields[0] !in data then Some(0)
    else match FirstMissing(fields[1..], data)
      case None => None
      case Some(i) => Some(i + 1)
  }

  /** The message of the Error expectData rejects with. */
  function MissingPropertyMessage(action: string, name: string): string {
    "message data for " + action + " does not have required property " + name
  }

  /** What expectData settles with: the data itself, or the message for the first missing field. */
  function Expected(fields: seq<string>, action: string, data: Data): (r: Result<Data, string>)
    ensures r.Ok? <==> forall j :: 0 <= j < |fields| ==> fields[j] in data
    ensures r.Ok? ==> r.value == data
    ensures r.Err? ==>
      exists i :: && 0 <= i < |fields| && fields[i] !in data
                  && (forall j :: 0 <= j < i ==> fields[j] in data)
                  && r.error == MissingPropertyMessage(action, fields[i])
  {
    match FirstMissing(fields, data)
    case None => Ok(data)
    case Some(i) => Err(MissingPropertyMessage(action, fields[i]))
  }

  /** expectData itself, with its loop over the required fields. */
  method ExpectData(fields: seq<string>, action: string, data: Data) returns (r: Result<Data, string>)
    ensures r == Expected(fields, action, data)
  {
    var i := 0;
    while i < |fields|
      invariant 0 <= i <= |fields|
      invariant forall j :: 0 <= j < i ==> fields[j] in data
    {
      var name := fields[i];
      if name !in data {
        FirstMissingAt(fields, data, i);
        return Err(MissingPropertyMessage(action, name));
      }
      i := i + 1;
    }
    return Ok(data);
  }

  /** When the fields before `i` are present and field `i` is not, the first missing field is `i`. */
  lemma {:induction false} FirstMissingAt(fields: seq<string>, data: Data, i: nat)
    requires i < |fields| && fields[i] !in data
    requires forall j :: 0 <= j < i ==> fields[j] in data
    ensures FirstMissing(fields, data) == Some(i)
    decreases i
  {
    if i > 0 {
      assert fields[0] in data;
      FirstMissingAt(fields[1..], data, i - 1);
    }
  }
}
