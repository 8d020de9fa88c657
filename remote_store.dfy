/** The bucket the file manager talks to, reduced to what the pages and the
    store use: a flat map from object keys to contents, with `copy`, `delete`,
    `put` and `get`, and the shape of one delimited listing response. */
module RemoteStore {
  import opened Wrappers

  type Content = seq<int>

  /** An object as one listing call reports it. */
  datatype ListedObject = ListedObject(name: string, url: string, lastModified: string, size: nat)

  /** The `{prefixes, objects}` result of one listing call with delimiter `/`:
      the common prefixes (each a full key ending in `/`) and the objects. */
  datatype ListResult = ListResult(prefixes: seq<string>, objects: seq<ListedObject>)

  /** The message a copy from a missing source fails with. */
  const NoSuchKeyMessage: string := "The specified key does not exist."

  /** The bucket after `copy(dest, src)` and then `delete(src)`; a copy from a
      missing source fails and nothing is deleted. */
  function CopyThenDelete(m: map<string, Content>, dest: string, src: string): (r: map<string, Content>)
    ensures src in m && dest != src ==>
      dest in r && r[dest] == m[src] && src !in r
    ensures src in m ==>
      forall k :: k != dest && k != src ==> (k in r <==> k in m) && (k in r ==> r[k] == m[k])
    ensures src in m && dest == src ==> src !in r && r.Keys == m.Keys - {src}
    ensures src !in m ==> r == m
  {
    if src in m then m[dest := m[src]] - {src} else m
  }

  /** Moving an object away and back, into a key that was free, leaves the
      bucket exactly as it was. */
  lemma MoveThereAndBack(m: map<string, Content>, src: string, dest: string)
    requires src in m && dest !in m
    ensures CopyThenDelete(CopyThenDelete(m, dest, src), src, dest) == m
  {
    var moved := CopyThenDelete(m, dest, src);
    var back := CopyThenDelete(moved, src, dest);
    assert back.Keys == m.Keys;
  }

  /** The remote bucket; `objects` is its whole state. */
  class Bucket {
    var objects: map<string, Content>

    constructor (initial: map<string, Content>)
      ensures objects == initial
    {
      objects := initial;
    }

    /** `copy(dest, src)`: fails, changing nothing, when `src` is absent. */
    method Copy(dest: string, src: string) returns (ok: bool)
      modifies this
      ensures ok <==> src in old(objects)
      ensures ok ==> objects == old(objects)[dest := old(objects)[src]]
      ensures !ok ==> objects == old(objects)
    {
      ok := src in objects;
      if ok {
        objects := objects[dest := objects[src]];
      }
    }

    /** `delete(key)`: deleting an absent key is not an error. */
    method Delete(key: string)
      modifies this
      ensures objects == old(objects) - {key}
    {
      objects := objects - {key};
    }

    /** `put(key, content)` */
    method Put(key: string, content: Content)
      modifies this
      ensures objects == old(objects)[key := content]
    {
      objects := objects[key := content];
    }

    /** `get(key)`: `None` is the not-found failure. */
    method Get(key: string) returns (r: Option<Content>)
      ensures r.Some? <==> key in objects
      ensures r.Some? ==> r.value == objects[key]
    {
      r := if key in objects then Some(objects[key]) else None;
    }
  }
}
