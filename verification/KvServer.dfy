/** The versioned key/value server: a compare-and-swap store. */
module KvServer {

  datatype Err = OK | ErrNoKey | ErrVersion | ErrMaybe

  datatype Entry = Entry(value: string, version: nat)

  type Store = map<string, Entry>

  datatype Request = Get(key: string) | Put(key: string, value: string, version: nat)

  /** What a handler answers; a Put reply carries only the error. */
  datatype Reply = Reply(value: string, version: nat, err: Err)

  /** A key that is not stored reads as version 0 with the empty value. */
  function VersionOf(st: Store, key: string): nat {
    if key in st then st[key].version else 0
  }

  function ValueOf(st: Store, key: string): string {
    if key in st then st[key].value else ""
  }

  /** Stored versions start at 1, so version 0 means "not stored". */
  ghost predicate VersionsPositive(st: Store) {
    forall k :: k in st ==> st[k].version >= 1
  }

  /** The compare of compare-and-swap. */
  predicate Matches(st: Store, req: Request) {
    req.Put? && req.version == VersionOf(st, req.key)
  }

  /** The store after one handler run: only a matching Put changes it, and only at its key. */
  function NextStore(st: Store, req: Request): Store {
    if Matches(st, req) then st[req.key := Entry(req.value, req.version + 1)] else st
  }

  function Answer(st: Store, req: Request): Reply {
    match req
    case Get(key) =>
      if key in st then Reply(st[key].value, st[key].version, OK) else Reply("", 0, ErrNoKey)
    case Put(key, _, _) =>
      if Matches(st, req) then Reply("", 0, OK)
      else if key in st then Reply("", 0, ErrVersion)
      else Reply("", 0, ErrNoKey)
  }

  class KVServer {
    var store: Store

    ghost predicate Valid()
      reads this
    {
      VersionsPositive(store)
    }

    constructor ()
      ensures Valid() && store == map[]
    {
      store := map[];
    }

    method AddRecord(key: string, value: string, version: nat)
      modifies this
      ensures store == old(store)[key := Entry(value, version + 1)]
    {
      store := store[key := Entry(value, version + 1)];
    }

    /** Answers false where the original stops the process: the key is missing. */
    method UpdateRecord(key: string, value: string) returns (ok: bool)
      modifies this
      ensures ok <==> key in old(store)
      ensures ok ==> store == old(store)[key := Entry(value, old(store)[key].version + 1)]
      ensures !ok ==> store == old(store)
    {
      if key !in store {
        return false;
      }
      store := store[key := Entry(value, store[key].version + 1)];
      return true;
    }

    method HandleGet(key: string) returns (reply: Reply)
      ensures reply == Answer(store, Get(key))
      ensures key in store ==> reply == Reply(store[key].value, store[key].version, OK)
      ensures key !in store ==> reply.err == ErrNoKey
    {
      if key in store {
        reply := Reply(store[key].value, store[key].version, OK);
      } else {
        reply := Reply("", 0, ErrNoKey);
      }
    }

    method HandlePut(key: string, value: string, version: nat) returns (reply: Reply)
      requires Valid()
      modifies this
      ensures Valid()
      ensures store == NextStore(old(store), Put(key, value, version))
      ensures reply == Answer(old(store), Put(key, value, version))
      ensures reply.err == OK ==> store == old(store)[key := Entry(value, version + 1)]
      ensures reply.err != OK ==> store == old(store)
      ensures key !in old(store) ==> reply.err == if version == 0 then OK else ErrNoKey
      ensures key in old(store) ==> reply.err == if version == old(store)[key].version then OK else ErrVersion
    {
      var err: Err;
      if key !in store {
        if version == 0 {
          AddRecord(key, value, version);
          err := OK;
        } else {
          err := ErrNoKey;
        }
      } else if version == store[key].version {
        var _ := UpdateRecord(key, value);
        err := OK;
      } else {
        err := ErrVersion;
      }
      reply := Reply("", 0, err);
    }
  }
}
