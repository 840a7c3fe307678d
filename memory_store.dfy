/**
  The in-process cache of src/lib/memoryStore.ts: a nullable document and
  an initialised flag, set together by setData and reset together by clear.
*/
module MemoryStoreModel {
  import opened Types
  import opened Storage

  class MemoryStore {
    var data: Option<Document>
    var isInitialized: bool

    /** The flag is set exactly when a document is cached. */
    ghost predicate Valid()
      reads this
    {
      isInitialized <==> data.Some?
    }

    constructor ()
      ensures Valid()
      ensures data == None && !isInitialized
    {
      data := None;
      isInitialized := false;
    }

    method SetData(d: Document)
      modifies this
      ensures Valid()
      ensures data == Some(d) && isInitialized
    {
      data := Some(d);
      isInitialized := true;
    }

    /** Returns the cached document, or None; changes nothing. */
    method GetData() returns (r: Option<Document>)
      ensures r == data
    {
      r := data;
    }

    /** Ready means initialised with a document; under Valid this is just "a document is cached". */
    method IsReady() returns (ready: bool)
      ensures ready <==> isInitialized && data.Some?
      ensures Valid() ==> (ready <==> data.Some?)
    {
      ready := isInitialized && data.Some?;
    }

    method Clear()
      modifies this
      ensures Valid()
      ensures data == None && !isInitialized
    {
      data := None;
      isInitialized := false;
    }
  }

  /** The static part of the class: the lazily created single instance. */
  class MemoryStoreStatics {
    var instance: MemoryStore?

    constructor ()
      ensures instance == null
    {
      instance := null;
    }

    /** The first call creates an empty store; every later call returns that same store. */
    method GetInstance() returns (s: MemoryStore)
      modifies this
      ensures instance == s
      ensures old(instance) != null ==> s == old(instance)
      ensures old(instance) == null ==> fresh(s) && s.Valid() && s.data == None && !s.isInitialized
    {
      if instance == null {
        instance := new MemoryStore();
      }
      s := instance;
    }
  }
}
