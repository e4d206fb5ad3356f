/** The dotted-key configuration store of application/config.py.

    The JSON document is a tree: a section maps names to sub-trees, and every
    other JSON value is a leaf carrying the text Python's `str()` gives it.
    A key such as "environment.settings.degrees_per_mile" is split at the
    dots into a path; all but the last segment name sections to walk
    through, and the last segment names the entry inside the section reached. */
module AppConfig {
  import opened Wrappers
  import Text

  datatype Cfg = Leaf(text: string) | Section(entries: map<string, Cfg>)

  /** `InvalidSetting` is the ValueError that `get_value` raises; `NotASection`
      stands for the failure of walking into a value that is not a dictionary. */
  datatype ConfigError = InvalidSetting | NotASection

  /** Where `_navigate_to_key` ends without creating anything: the dictionary
      reached, nothing (`None`), or a value that is not a dictionary. */
  datatype Walk = Reached(section: map<string, Cfg>) | Missing | HitLeaf

  /** The segments of a dotted key. */
  function PathOf(key: string): (path: seq<string>)
    ensures |path| >= 1
  {
    Text.Split(key, '.')
  }

  /** Follows every segment of `keys` from `root`. */
  function WalkTo(root: map<string, Cfg>, keys: seq<string>): Walk
    decreases |keys|
  {
    if keys == [] then Reached(root)
    else if keys[0] !in root then Missing
    else match root[keys[0]]
      case Leaf(_) => HitLeaf
      case Section(m) => WalkTo(m, keys[1..])
  }

  /** `get_value` on a path: walk all but the last segment, then read the last. */
  function Lookup(root: map<string, Cfg>, path: seq<string>): Result<Cfg, ConfigError>
    requires |path| >= 1
  {
    match WalkTo(root, path[..|path| - 1])
    case Reached(m) =>
      if path[|path| - 1] in m then Ok(m[path[|path| - 1]]) else Err(InvalidSetting)
    case Missing => Err(InvalidSetting)
    case HitLeaf => Err(NotASection)
  }

  /** `set_value` on a path: missing sections on the way are created empty,
      and the last segment is bound to `v`, replacing what was there. */
  function Put(root: map<string, Cfg>, path: seq<string>, v: Cfg): Result<map<string, Cfg>, ConfigError>
    requires |path| >= 1
    decreases |path|
  {
    var k := path[0];
    if |path| == 1 then Ok(root[k := v])
    else
      match (if k in root then root[k] else Section(map[]))
      case Leaf(_) => Err(NotASection)
      case Section(m) =>
        match Put(m, path[1..], v)
        case Ok(m') => Ok(root[k := Section(m')])
        case Err(e) => Err(e)
  }

  /** `remove_key` and `remove_section` on a path: the last segment is deleted
      from the section reached; a missing section or entry changes nothing. */
  function Remove(root: map<string, Cfg>, path: seq<string>): Result<map<string, Cfg>, ConfigError>
    requires |path| >= 1
    decreases |path|
  {
    var k := path[0];
    if |path| == 1 then Ok(if k in root then root - {k} else root)
    else if k !in root then Ok(root)
    else
      match root[k]
      case Leaf(_) => Err(NotASection)
      case Section(m) =>
        match Remove(m, path[1..])
        case Ok(m') => Ok(root[k := Section(m')])
        case Err(e) => Err(e)
  }

  // ---------------------------------------------------------------------------
  // A reference reading of the tree, independent of how the code walks it.

  /** The value stored under `path`, if every segment but the last names a
      section and the last is present. */
  function At(root: map<string, Cfg>, path: seq<string>): Option<Cfg>
    requires |path| >= 1
    decreases |path|
  {
    if path[0] !in root then None
    else if |path| == 1 then Some(root[path[0]])
    else match root[path[0]]
      case Leaf(_) => None
      case Section(m) => At(m, path[1..])
  }

  /** Some proper prefix of `path` leads to a value that is not a section. */
  predicate ThroughLeaf(root: map<string, Cfg>, path: seq<string>)
    requires |path| >= 1
    decreases |path|
  {
    |path| > 1 && path[0] in root &&
    match root[path[0]]
    case Leaf(_) => true
    case Section(m) => ThroughLeaf(m, path[1..])
  }

  /** The two paths part ways at some segment, so neither is a prefix of the
      other. */
  predicate Diverge(p: seq<string>, q: seq<string>)
  {
    exists i :: 0 <= i < |p| && i < |q| && p[i] != q[i]
  }

  lemma DivergeTail(p: seq<string>, q: seq<string>)
    requires |p| >= 1 && |q| >= 1 && p[0] == q[0] && Diverge(p, q)
    ensures |p| > 1 && |q| > 1 && Diverge(p[1..], q[1..])
  {
    var i :| 0 <= i < |p| && i < |q| && p[i] != q[i];
    assert p[1..][i - 1] != q[1..][i - 1];
  }

  lemma PrefixTail(path: seq<string>)
    requires |path| >= 2
    ensures path[..|path| - 1] == [path[0]] + path[1..][..|path| - 2]
  {
  }

  // ---------------------------------------------------------------------------
  // get_value

  /** `get_value` succeeds exactly when a value is stored under the path, and
      returns that value; it fails with `NotASection` exactly when the walk
      runs into a non-dictionary, and otherwise with `InvalidSetting`. It never
      falls back to a default. */
  lemma {:induction false} LookupMeansAt(root: map<string, Cfg>, path: seq<string>)
    requires |path| >= 1
    ensures Lookup(root, path).Ok? <==> At(root, path).Some?
    ensures Lookup(root, path).Ok? ==> Lookup(root, path).value == At(root, path).value
    ensures Lookup(root, path) == Err(NotASection) <==> ThroughLeaf(root, path)
    decreases |path|
  {
    if |path| >= 2 {
      PrefixTail(path);
      var k := path[0];
      if k in root && root[k].Section? {
        LookupMeansAt(root[k].entries, path[1..]);
        assert path[1..][|path| - 2] == path[|path| - 1];
      }
    }
  }

  /** A one-segment key addresses the root dictionary itself. */
  lemma SingleSegmentAddressesRoot(root: map<string, Cfg>, k: string, v: Cfg)
    ensures Lookup(root, [k]) == if k in root then Ok(root[k]) else Err(InvalidSetting)
    ensures Put(root, [k], v) == Ok(root[k := v])
    ensures Remove(root, [k]) == Ok(root - {k})
  {
    if k !in root {
      assert root - {k} == root;
    }
  }

  // ---------------------------------------------------------------------------
  // set_value

  /** `set_value` fails only when the path runs through a non-dictionary. */
  lemma {:induction false} PutFailsOnlyThroughLeaf(root: map<string, Cfg>, path: seq<string>, v: Cfg)
    requires |path| >= 1
    ensures Put(root, path, v).Err? <==> ThroughLeaf(root, path)
    ensures Put(root, path, v).Err? ==> Put(root, path, v).error == NotASection
    decreases |path|
  {
    if |path| > 1 {
      var k := path[0];
      var sub := if k in root then root[k] else Section(map[]);
      if sub.Section? {
        PutFailsOnlyThroughLeaf(sub.entries, path[1..], v);
        if k !in root {
          EmptyHasNoLeaf(path[1..]);
        }
      }
    }
  }

  lemma {:induction false} EmptyHasNoLeaf(path: seq<string>)
    requires |path| >= 1
    ensures !ThroughLeaf(map[], path)
  {
  }

  /** After a successful `set_value`, reading the same path gives the value. */
  lemma {:induction false} PutThenAt(root: map<string, Cfg>, path: seq<string>, v: Cfg)
    requires |path| >= 1 && Put(root, path, v).Ok?
    ensures At(Put(root, path, v).value, path) == Some(v)
    ensures Lookup(Put(root, path, v).value, path) == Ok(v)
    decreases |path|
  {
    if |path| > 1 {
      var k := path[0];
      var sub := if k in root then root[k] else Section(map[]);
      PutThenAt(sub.entries, path[1..], v);
    }
    LookupMeansAt(Put(root, path, v).value, path);
  }

  /** `set_value` leaves every path that parts ways with the key unchanged. */
  lemma {:induction false} PutKeepsOthers(root: map<string, Cfg>, p: seq<string>, q: seq<string>, v: Cfg)
    requires |p| >= 1 && |q| >= 1 && Put(root, p, v).Ok? && Diverge(p, q)
    ensures At(Put(root, p, v).value, q) == At(root, q)
    decreases |p|
  {
    var k := p[0];
    if q[0] == k {
      DivergeTail(p, q);
      var sub := if k in root then root[k] else Section(map[]);
      PutKeepsOthers(sub.entries, p[1..], q[1..], v);
      if k !in root {
        EmptyHasNothing(q[1..]);
      }
    }
  }

  lemma {:induction false} EmptyHasNothing(path: seq<string>)
    requires |path| >= 1
    ensures At(map[], path) == None
  {
  }

  /** `set_value` adds the first segment to the root's keys and nothing else. */
  lemma PutKeys(root: map<string, Cfg>, path: seq<string>, v: Cfg)
    requires |path| >= 1 && Put(root, path, v).Ok?
    ensures Put(root, path, v).value.Keys == root.Keys + {path[0]}
  {
  }

  /** Every proper prefix of the key is a section after `set_value`; one that
      did not exist before is a new section holding only the next segment. */
  lemma {:induction false} PutMakesSections(root: map<string, Cfg>, p: seq<string>, v: Cfg, j: nat)
    requires |p| >= 1 && Put(root, p, v).Ok? && 1 <= j < |p|
    ensures At(Put(root, p, v).value, p[..j]).Some?
    ensures At(Put(root, p, v).value, p[..j]).value.Section?
    ensures At(root, p[..j]).None? ==> At(Put(root, p, v).value, p[..j]).value.entries.Keys == {p[j]}
    decreases |p|
  {
    var k := p[0];
    var sub := if k in root then root[k] else Section(map[]);
    var m' := Put(sub.entries, p[1..], v).value;
    if j == 1 {
      PutKeys(sub.entries, p[1..], v);
    } else {
      assert p[..j][1..] == p[1..][..j - 1];
      PutMakesSections(sub.entries, p[1..], v, j - 1);
      if k !in root {
        EmptyHasNothing(p[1..][..j - 1]);
      }
    }
  }

  /** Repeating a `set_value` changes nothing more. */
  lemma {:induction false} PutIdempotent(root: map<string, Cfg>, path: seq<string>, v: Cfg)
    requires |path| >= 1 && Put(root, path, v).Ok?
    ensures Put(Put(root, path, v).value, path, v) == Put(root, path, v)
    decreases |path|
  {
    var k := path[0];
    var r := Put(root, path, v).value;
    if |path| > 1 {
      var sub := if k in root then root[k] else Section(map[]);
      PutIdempotent(sub.entries, path[1..], v);
    }
    assert r[k := r[k]] == r;
  }

  /** Setting a key that was just set overwrites it: the last write wins. */
  lemma {:induction false} PutOverwrites(root: map<string, Cfg>, path: seq<string>, v: Cfg, w: Cfg)
    requires |path| >= 1 && Put(root, path, v).Ok?
    ensures Put(Put(root, path, v).value, path, w) == Put(root, path, w)
    decreases |path|
  {
    var k := path[0];
    var r := Put(root, path, v).value;
    if |path| > 1 {
      var sub := if k in root then root[k] else Section(map[]);
      PutOverwrites(sub.entries, path[1..], v, w);
      PutFailsOnlyThroughLeaf(sub.entries, path[1..], v);
      PutFailsOnlyThroughLeaf(sub.entries, path[1..], w);
      var m' := Put(sub.entries, path[1..], w).value;
      assert r[k := Section(m')] == root[k := Section(m')];
    } else {
      assert r[k := w] == root[k := w];
    }
  }

  // ---------------------------------------------------------------------------
  // remove_key / remove_section

  /** Removing fails only when the path runs through a non-dictionary. */
  lemma {:induction false} RemoveFailsOnlyThroughLeaf(root: map<string, Cfg>, path: seq<string>)
    requires |path| >= 1
    ensures Remove(root, path).Err? <==> ThroughLeaf(root, path)
    decreases |path|
  {
    if |path| > 1 && path[0] in root && root[path[0]].Section? {
      RemoveFailsOnlyThroughLeaf(root[path[0]].entries, path[1..]);
    }
  }

  /** After a successful removal nothing is stored under the path any more. */
  lemma {:induction false} RemoveThenAt(root: map<string, Cfg>, path: seq<string>)
    requires |path| >= 1 && Remove(root, path).Ok?
    ensures At(Remove(root, path).value, path) == None
    decreases |path|
  {
    if |path| > 1 && path[0] in root && root[path[0]].Section? {
      RemoveThenAt(root[path[0]].entries, path[1..]);
    }
  }

  /** Removing a path under which nothing is stored is a no-op. */
  lemma {:induction false} RemoveAbsentIsNoop(root: map<string, Cfg>, path: seq<string>)
    requires |path| >= 1 && At(root, path).None? && !ThroughLeaf(root, path)
    ensures Remove(root, path) == Ok(root)
    decreases |path|
  {
    if |path| > 1 && path[0] in root && root[path[0]].Section? {
      RemoveAbsentIsNoop(root[path[0]].entries, path[1..]);
      assert root[path[0] := root[path[0]]] == root;
    }
  }

  /** Removing leaves every path that parts ways with the key unchanged. */
  lemma {:induction false} RemoveKeepsOthers(root: map<string, Cfg>, p: seq<string>, q: seq<string>)
    requires |p| >= 1 && |q| >= 1 && Remove(root, p).Ok? && Diverge(p, q)
    ensures At(Remove(root, p).value, q) == At(root, q)
    decreases |p|
  {
    if q[0] == p[0] {
      DivergeTail(p, q);
      if p[0] in root && root[p[0]].Section? {
        RemoveKeepsOthers(root[p[0]].entries, p[1..], q[1..]);
      }
    }
  }

  /** Removing deletes only the last segment from its parent: every section on
      the way stays a section with the same keys, and the parent keeps all its
      entries but the removed one, even when it is left empty. */
  lemma {:induction false} RemoveKeepsParents(root: map<string, Cfg>, p: seq<string>, j: nat)
    requires |p| >= 1 && Remove(root, p).Ok? && 1 <= j < |p| && At(root, p[..j]).Some?
    ensures At(Remove(root, p).value, p[..j]).Some?
    ensures At(root, p[..j]).value.Section? && At(Remove(root, p).value, p[..j]).value.Section?
    ensures j < |p| - 1 ==>
      At(Remove(root, p).value, p[..j]).value.entries.Keys == At(root, p[..j]).value.entries.Keys
    ensures j == |p| - 1 ==>
      At(Remove(root, p).value, p[..j]).value.entries == At(root, p[..j]).value.entries - {p[|p| - 1]}
    decreases |p|
  {
    var k := p[0];
    assert p[..j][0] == k;
    assert k in root && root[k].Section?;
    var m := root[k].entries;
    var tail := p[1..];
    assert p[|p| - 1] == tail[|tail| - 1];
    if j == 1 {
      assert p[..j] == [k];
    } else {
      assert p[..j][1..] == tail[..j - 1];
      RemoveKeepsParents(m, tail, j - 1);
    }
  }

  /** After a removal, `get_value` of the same key raises `InvalidSetting`. */
  lemma RemoveThenLookup(root: map<string, Cfg>, path: seq<string>)
    requires |path| >= 1 && Remove(root, path).Ok?
    ensures Lookup(Remove(root, path).value, path) == Err(InvalidSetting)
  {
    var r := Remove(root, path).value;
    RemoveThenAt(root, path);
    RemoveFailsOnlyThroughLeaf(root, path);
    RemoveKeepsLeafFreedom(root, path);
    LookupMeansAt(r, path);
  }

  lemma {:induction false} RemoveKeepsLeafFreedom(root: map<string, Cfg>, path: seq<string>)
    requires |path| >= 1 && Remove(root, path).Ok?
    ensures !ThroughLeaf(Remove(root, path).value, path)
    decreases |path|
  {
    RemoveFailsOnlyThroughLeaf(root, path);
    if |path| > 1 && path[0] in root && root[path[0]].Section? {
      RemoveKeepsLeafFreedom(root[path[0]].entries, path[1..]);
    }
  }

  /** The walk of `_navigate_to_key` decides what a removal does: through a
      non-dictionary it fails, and when the section or the last segment is
      missing it changes nothing. */
  lemma {:induction false} RemoveFollowsWalk(root: map<string, Cfg>, path: seq<string>)
    requires |path| >= 1
    ensures WalkTo(root, path[..|path| - 1]) == HitLeaf <==> Remove(root, path).Err?
    ensures WalkTo(root, path[..|path| - 1]).Missing? ==> Remove(root, path) == Ok(root)
    ensures var w := WalkTo(root, path[..|path| - 1]);
      w.Reached? && path[|path| - 1] !in w.section ==> Remove(root, path) == Ok(root)
  {
    LookupMeansAt(root, path);
    RemoveFailsOnlyThroughLeaf(root, path);
    if WalkTo(root, path[..|path| - 1]).Missing? || Lookup(root, path) == Err(InvalidSetting) {
      RemoveAbsentIsNoop(root, path);
    }
  }

  // ---------------------------------------------------------------------------
  // The Config object

  class Config {
    /** The parsed JSON document (`self.config`). */
    var config: map<string, Cfg>

    /** `__init__` with the document `load_config` produced. */
    constructor (loaded: map<string, Cfg>)
      ensures config == loaded
    {
      config := loaded;
    }

    /** `_navigate_to_key(key_path)` without `create_missing`: walks the
        dictionaries named by every segment but the last. */
    method NavigateToKey(path: seq<string>) returns (w: Walk)
      requires |path| >= 1
      ensures w == WalkTo(config, path[..|path| - 1])
    {
      var data := config;
      var i := 0;
      while i < |path| - 1
        invariant 0 <= i <= |path| - 1
        invariant WalkTo(data, path[i..|path| - 1]) == WalkTo(config, path[..|path| - 1])
      {
        assert path[i..|path| - 1][1..] == path[i + 1..|path| - 1];
        if path[i] !in data {
          return Missing;
        }
        match data[path[i]] {
          case Leaf(_) =>
            return HitLeaf;
          case Section(m) =>
            data := m;
        }
        i := i + 1;
      }
      return Reached(data);
    }

    /** `get_value(key)`. */
    method GetValue(key: string) returns (r: Result<Cfg, ConfigError>)
      ensures r == Lookup(config, PathOf(key))
      ensures r.Ok? <==> At(config, PathOf(key)).Some?
      ensures r.Ok? ==> r.value == At(config, PathOf(key)).value
    {
      var path := PathOf(key);
      LookupMeansAt(config, path);
      var data := NavigateToKey(path);
      var last := path[|path| - 1];
      match data {
        case Reached(m) =>
          if last in m {
            return Ok(m[last]);
          }
          return Err(InvalidSetting);
        case Missing =>
          return Err(InvalidSetting);
        case HitLeaf =>
          return Err(NotASection);
      }
    }

    /** `set_value(key, value)`; `save_config` writes the file and is not
        modelled. On failure the document is unchanged. */
    method SetValue(key: string, value: Cfg) returns (r: Outcome<ConfigError>)
      modifies this
      ensures Put(old(config), PathOf(key), value).Ok? ==>
        r == Pass && config == Put(old(config), PathOf(key), value).value
      ensures Put(old(config), PathOf(key), value).Err? ==>
        r == Fail(NotASection) && config == old(config)
    {
      PutFailsOnlyThroughLeaf(config, PathOf(key), value);
      match Put(config, PathOf(key), value) {
        case Ok(updated) =>
          config := updated;
          return Pass;
        case Err(e) =>
          return Fail(e);
      }
    }

    /** `remove_key(key)`: walks to the parent and deletes the last segment
        from it when present. On failure the document is unchanged. */
    method RemoveKey(key: string) returns (r: Outcome<ConfigError>)
      modifies this
      ensures Remove(old(config), PathOf(key)).Ok? ==>
        r == Pass && config == Remove(old(config), PathOf(key)).value
      ensures Remove(old(config), PathOf(key)).Err? ==>
        r == Fail(NotASection) && config == old(config)
    {
      var path := PathOf(key);
      RemoveFollowsWalk(config, path);
      RemoveFailsOnlyThroughLeaf(config, path);
      var data := NavigateToKey(path);
      match data {
        case Reached(m) =>
          if path[|path| - 1] in m {
            config := Remove(config, path).value;
          }
          return Pass;
        case Missing =>
          return Pass;
        case HitLeaf =>
          return Fail(NotASection);
      }
    }

    /** `remove_section(key)`: the same walk and deletion as `remove_key`. */
    method RemoveSection(key: string) returns (r: Outcome<ConfigError>)
      modifies this
      ensures Remove(old(config), PathOf(key)).Ok? ==>
        r == Pass && config == Remove(old(config), PathOf(key)).value
      ensures Remove(old(config), PathOf(key)).Err? ==>
        r == Fail(NotASection) && config == old(config)
    {
      var path := PathOf(key);
      RemoveFollowsWalk(config, path);
      RemoveFailsOnlyThroughLeaf(config, path);
      var parentData := NavigateToKey(path);
      match parentData {
        case Reached(m) =>
          if path[|path| - 1] in m {
            config := Remove(config, path).value;
          }
          return Pass;
        case Missing =>
          return Pass;
        case HitLeaf =>
          return Fail(NotASection);
      }
    }
  }
}
