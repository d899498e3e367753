/** The map-backed string set of page/set.go, used by link extraction to
    remember which URLs it has already listed. */
module StringSet {

  class Set {
    /** The keys of the Go map `data`; its values carry no information. */
    var data: set<string>

    /** `NewSet`: an empty set. */
    constructor ()
      ensures data == {}
      ensures forall k :: !Has(k)
    {
      data := {};
    }

    /** `Add`: stores `key`; adding a present key changes nothing. */
    method Add(key: string)
      modifies this
      ensures data == old(data) + {key}
      ensures Has(key)
      ensures old(Has(key)) ==> data == old(data)
      ensures forall j :: j != key ==> (Has(j) <==> old(Has(j)))
    {
      data := data + {key};
    }

    /** `Has`: a lookup that reads the set and changes nothing. */
    function Has(key: string): (present: bool)
      reads this
      ensures present <==> key in data
    {
      key in data
    }
  }
}
