/**
 * The parsed override file: the value tree that `yaml.safe_load` returns, and
 * the nested lookup `current = current[key]` applied one key at a time.
 */
module Config {
  import opened Wrappers

  /**
   * A YAML value. `Map` is a mapping with string keys, `Str` a string, and
   * `Other` everything else safe_load can produce (lists, numbers, booleans,
   * null, dates): none of those can be indexed by a string key, and none is a
   * `str`. Entries under non-string keys can never be reached by a string key,
   * so they are not represented.
   */
  datatype Value = Map(entries: map<string, Value>) | Str(text: string) | Other

  /** One step `current[key]` raises (KeyError on a mapping lacking the key, TypeError on a non-mapping). */
  predicate StepFails(v: Value, key: string) {
    !(v.Map? && key in v.entries)
  }

  /**
   * Descend from `v` along `path`; `None` when some step raises.
   */
  function Lookup(v: Value, path: seq<string>): (r: Option<Value>)
    decreases |path|
  {
    if path == [] then Some(v)
    else if StepFails(v, path[0]) then None
    else Lookup(v.entries[path[0]], path[1..])
  }

  /**
   * A lookup misses exactly when some step along the path raises: the first
   * `j` keys lead to a value that cannot be indexed by key `j`.
   */
  lemma {:induction false} LookupMissIff(v: Value, path: seq<string>)
    ensures Lookup(v, path).None? <==>
      exists j :: 0 <= j < |path| && Lookup(v, path[..j]).Some? && StepFails(Lookup(v, path[..j]).value, path[j])
    decreases |path|
  {
    if path != [] {
      assert path[..0] == [];
      if StepFails(v, path[0]) {
        assert Lookup(v, path[..0]) == Some(v);
      } else {
        var w := v.entries[path[0]];
        var tail := path[1..];
        LookupMissIff(w, tail);
        forall j | 0 <= j < |tail|
          ensures Lookup(v, path[..j + 1]) == Lookup(w, tail[..j]) && path[j + 1] == tail[j]
        {
          assert path[..j + 1][1..] == tail[..j];
        }
        if Lookup(v, path).None? {
          var j :| 0 <= j < |tail| && Lookup(w, tail[..j]).Some? && StepFails(Lookup(w, tail[..j]).value, tail[j]);
          assert Lookup(v, path[..j + 1]).Some? && StepFails(Lookup(v, path[..j + 1]).value, path[j + 1]);
        } else {
          forall j | 0 <= j < |path| && Lookup(v, path[..j]).Some?
            ensures !StepFails(Lookup(v, path[..j]).value, path[j])
          {
            if j > 0 {
              assert Lookup(v, path[..j]) == Lookup(w, tail[..j - 1]);
            }
          }
        }
      }
    }
  }

  /** The document holding `leaf` at `path` and nothing else. */
  function Nest(path: seq<string>, leaf: Value): (r: Value)
    ensures path != [] ==> r.Map? && r.entries.Keys == {path[0]}
    decreases |path|
  {
    if path == [] then leaf else Map(map[path[0] := Nest(path[1..], leaf)])
  }

  /** Looking up the path a document was nested under finds the leaf. */
  lemma {:induction false} LookupNest(path: seq<string>, leaf: Value)
    ensures Lookup(Nest(path, leaf), path) == Some(leaf)
    decreases |path|
  {
    if path != [] {
      LookupNest(path[1..], leaf);
    }
  }

  /** A path whose first key differs from `k` does not see an entry stored under `k`. */
  lemma LookupOtherKey(m: map<string, Value>, k: string, x: Value, path: seq<string>)
    requires path != [] && path[0] != k
    ensures Lookup(Map(m[k := x]), path) == Lookup(Map(m), path)
  {
  }
}
