/**
 * A lazily loaded reference to an entity by its i32 id: the entity is fetched
 * on first use and cached; on the wire the handle is only its id.  The fetch
 * (`from_id`, a database lookup) is a function parameter.
 */
module Phantom {
  import opened Wrappers
  import opened Bits
  import opened Decimal

  /** `i32::deserialize` read from decimal text. */
  function ParseI32(text: string): Result<int, ParseIntError> {
    ParseInt(text, true, I32_MIN, I32_MAX)
  }

  class Phantom<T> {
    var id: I32
    var inner: Option<T>

    /** `new`: nothing is cached yet, and the handle answers with the id it was given. */
    constructor (id: I32)
      ensures this.id == id && inner == None && GetId() == id
    {
      this.id := id;
      inner := None;
    }

    /** `from_option`: no id gives no handle, an id gives a fresh empty handle. */
    static method FromOption(id: Option<I32>) returns (p: Option<Phantom<T>>)
      ensures p.None? <==> id.None?
      ensures p.Some? ==> fresh(p.value) && p.value.id == id.value && p.value.inner == None
    {
      if id.None? {
        return None;
      }
      var handle := new Phantom(id.value);
      return Some(handle);
    }

    /**
     * `get_inner`: a cached entity is returned without fetching; otherwise
     * the fetch result is cached on success and its error returned on failure.
     */
    method GetInner<E>(fromId: I32 -> Result<T, E>) returns (r: Result<T, E>)
      modifies this
      ensures id == old(id)
      ensures old(inner).Some? ==> r == Ok(old(inner).value) && inner == old(inner)
      ensures old(inner).None? && fromId(id).Ok? ==> r == fromId(id) && inner == Some(fromId(id).value)
      ensures old(inner).None? && fromId(id).Err? ==> r == fromId(id) && inner == None
      ensures r.Ok? ==> inner == Some(r.value)
    {
      if inner.None? {
        var fetched := fromId(id);
        if fetched.Err? {
          return Err(fetched.error);
        }
        SetInner(fetched.value);
      }
      return Ok(inner.value);
    }

    /** `fetch_inner`: always fetches, whatever is cached, and changes nothing. */
    method FetchInner<E>(fromId: I32 -> Result<T, E>) returns (r: Result<T, E>)
      ensures r == fromId(id)
    {
      r := fromId(id);
    }

    /** `set_inner`: replaces the cache; the id stays. */
    method SetInner(value: T)
      modifies this
      ensures inner == Some(value) && id == old(id)
    {
      inner := Some(value);
    }

    /** `get_id`: the id the handle was made with, which is also the id it serialises as. */
    function GetId(): (i: I32)
      reads this
      ensures i == id
      ensures ParseI32(Serialize()) == Ok(i as int)
    {
      id
    }

    /** Serialisation writes the id alone, as a JSON integer. */
    function Serialize(): (text: string)
      reads this
      ensures ParseI32(text) == Ok(id as int)
    {
      FormatParse(id, I32_MIN, I32_MAX);
      FormatInt(id)
    }

    /** Deserialisation reads an i32 and builds a handle with nothing cached. */
    static method Deserialize(text: string) returns (r: Result<Phantom<T>, ParseIntError>)
      ensures r.Ok? <==> ParseI32(text).Ok?
      ensures r.Err? ==> r.error == ParseI32(text).error
      ensures r.Ok? ==> fresh(r.value) && r.value.id == ParseI32(text).value && r.value.inner == None
    {
      var parsed := ParseI32(text);
      if parsed.Err? {
        return Err(parsed.error);
      }
      ParseIntSpec(text, true, I32_MIN, I32_MAX);
      var handle := new Phantom(parsed.value);
      return Ok(handle);
    }
  }

  /** A serialise/deserialise round trip keeps the id and drops the cached entity. */
  method RoundTrip<T>(p: Phantom<T>) returns (q: Phantom<T>)
    ensures fresh(q) && q.id == p.id && q.inner == None
  {
    var r := Phantom<T>.Deserialize(p.Serialize());
    q := r.value;
  }

  /** Two loads fetch once: the second returns the first's entity, whatever the second fetch would say. */
  method GetInnerTwice<T, E>(p: Phantom<T>, first: I32 -> Result<T, E>, second: I32 -> Result<T, E>)
    returns (a: Result<T, E>, b: Result<T, E>)
    modifies p
    ensures a.Ok? ==> b == a
    ensures old(p.inner).None? ==> a == first(p.id)
  {
    a := p.GetInner(first);
    b := p.GetInner(second);
  }
}
