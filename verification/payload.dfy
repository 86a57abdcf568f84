/**
  The two payload extractions whose rules decide the LED-strip handlers'
  behaviour: enum-by-name (`usb_talk_payload_get_enum`) and the
  capacity-bounded byte blob (`usb_talk_payload_get_data`). The JSON parsing
  underneath is not modelled: a field arrives as `None` when it is missing or
  has the wrong type, and as `Some(v)` otherwise.
*/
module Payload {
  import opened Wrappers

  /** Position of the first occurrence of `name` in `names`. */
  function IndexOf(names: seq<string>, name: string): (r: Option<nat>)
    ensures r.Some? <==> name in names
    ensures r.Some? ==> r.value < |names| && names[r.value] == name
    ensures r.Some? ==> forall j :: 0 <= j < r.value ==> names[j] != name
  {
    if |names| == 0 then None
    else if names[0] == name then Some(0)
    else
      match IndexOf(names[1..], name)
      case None => None
      case Some(k) => Some(k + 1)
  }

  /**
    Enum-by-name: the field's string is matched case-sensitively against the
    candidate names and yields its zero-based index; no match fails.
  */
  function GetEnum(field: Option<string>, names: seq<string>): (r: Option<nat>)
    ensures r.Some? <==> field.Some? && field.value in names
    ensures r.Some? ==> r.value < |names| && names[r.value] == field.value
  {
    match field
    case None => None
    case Some(name) => IndexOf(names, name)
  }

  /**
    Byte blob: the caller passes its destination capacity; a blob longer than
    that fails, otherwise the blob and its length are handed back.
  */
  function GetData(field: Option<seq<byte>>, capacity: nat): (r: Option<seq<byte>>)
    ensures r.Some? <==> field.Some? && |field.value| <= capacity
    ensures r.Some? ==> r.value == field.value
  {
    match field
    case Some(data) => if |data| <= capacity then Some(data) else None
    case None => None
  }

  /**
    The decoder writes the blob over the front of the destination buffer and
    leaves the bytes after it as they were.
  */
  function Overwrite(buffer: seq<byte>, data: seq<byte>): (r: seq<byte>)
    requires |data| <= |buffer|
    ensures |r| == |buffer|
    ensures r[..|data|] == data
    ensures r[|data|..] == buffer[|data|..]
  {
    data + buffer[|data|..]
  }
}
