/** Models/ErrorResponse.cs: a message stored as set, and read back with an
    "ERROR: " prefix. */
module ErrorResponses {
  import opened Common

  const Prefix: string := "ERROR: "

  class ErrorResponse {
    /** The backing field `_message`. */
    var stored: Option<string>

    constructor ()
      ensures stored == None && Message() == None
    {
      stored := None;
    }

    /** The getter: the stored message with the prefix, or null. */
    function Message(): (r: Option<string>)
      reads this
      ensures r.None? <==> stored.None?
      ensures r.Some? ==> |r.value| == |Prefix| + |stored.value| && r.value[..|Prefix|] == Prefix
      ensures r.Some? ==> r.value[|Prefix|..] == stored.value
    {
      if stored.Some? then Some(Prefix + stored.value) else None
    }

    /** The setter: the stored value is replaced, whatever it was, so the last
        write decides what is read. */
    method SetMessage(value: Option<string>)
      modifies this
      ensures stored == value
      ensures Message() == if value.Some? then Some(Prefix + value.value) else None
    {
      stored := value;
    }
  }

  /** Reading does not change the stored value, so repeated reads agree; but
      writing back what was read adds the prefix a second time. */
  method ReadBackDoublesPrefix(e: ErrorResponse, m: string) returns (first: Option<string>, second: Option<string>)
    modifies e
    ensures first == Some(Prefix + m) && second == Some(Prefix + Prefix + m)
    ensures first != second
  {
    e.SetMessage(Some(m));
    first := e.Message();
    assert e.Message() == first;
    e.SetMessage(first);
    second := e.Message();
    assert Prefix + (Prefix + m) == Prefix + Prefix + m;
    assert |second.value| == |first.value| + |Prefix|;
  }
}
