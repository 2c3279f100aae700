/** `_deep_merge` of `config.py`: the project file over the packaged default. */
module DeepMerge {
  import opened Optional

  /** A TOML value: a table, or anything else. */
  datatype Node = Leaf(value: string) | Table(entries: Entries)

  type Entries = map<string, Node>

  function Merged(base: Entries, override: Entries): Entries
    decreases Table(override), 1
  {
    map k | k in base.Keys + override.Keys :: if k in override then MergedAt(base, override, k) else base[k]
  }

  /** What an overridden key ends up with. */
  function MergedAt(base: Entries, override: Entries, k: string): Node
    requires k in override
    decreases Table(override), 0
  {
    if k in base && base[k].Table? && override[k].Table? then Table(Merged(base[k].entries, override[k].entries))
    else override[k]
  }

  /** Every key but those still to do has its merged value. */
  predicate PartlyMerged(base: Entries, override: Entries, todo: set<string>, merged: Entries) {
    && todo <= override.Keys && merged.Keys == base.Keys + (override.Keys - todo)
    && (forall k :: k in merged && k in override && k !in todo ==> merged[k] == MergedAt(base, override, k))
    && (forall k :: k in merged && (k !in override || k in todo) ==> merged[k] == base[k])
  }

  lemma OneMoreMerged(base: Entries, override: Entries, todo: set<string>, merged: Entries, key: string, value: Node)
    requires PartlyMerged(base, override, todo, merged) && key in todo && value == MergedAt(base, override, key)
    ensures PartlyMerged(base, override, todo - {key}, merged[key := value])
  {
  }

  lemma AllMerged(base: Entries, override: Entries, merged: Entries)
    requires PartlyMerged(base, override, {}, merged)
    ensures merged == Merged(base, override)
  {
  }

  /** One round of the loop of `_deep_merge`; until a key's round its merged value is the base's. */
  method MergeValue(base: Entries, override: Entries, key: string) returns (value: Node)
    requires key in override
    ensures value == MergedAt(base, override, key)
    decreases Table(override), 0
  {
    value := override[key];
    if key in base && base[key].Table? && value.Table? {
      var nested := Merge(base[key].entries, value.entries);
      value := Table(nested);
    }
  }

  /** `_deep_merge`. */
  method Merge(base: Entries, override: Entries) returns (merged: Entries)
    ensures merged == Merged(base, override)
    decreases Table(override), 1
  {
    merged := base;
    var todo := override.Keys;
    while todo != {}
      invariant PartlyMerged(base, override, todo, merged)
      decreases |todo|
    {
      var key :| key in todo;
      assert key in override.Keys;
      var value := MergeValue(base, override, key);
      OneMoreMerged(base, override, todo, merged, key, value);
      merged := merged[key := value];
      todo := todo - {key};
    }
    AllMerged(base, override, merged);
  }

  /** What lies at a path of keys. */
  function Get(entries: Entries, path: seq<string>): Option<Node>
    requires path != []
    decreases |path|
  {
    if path[0] !in entries then None
    else if |path| == 1 then Some(entries[path[0]])
    else if entries[path[0]].Table? then Get(entries[path[0]].entries, path[1..])
    else None
  }

  /** A value that is no table lies on the way to a path. */
  predicate Blocks(entries: Entries, path: seq<string>)
    requires path != []
    decreases |path|
  {
    && |path| > 1 && path[0] in entries
    && (entries[path[0]].Leaf? || Blocks(entries[path[0]].entries, path[1..]))
  }

  /** At every depth, a setting has the overriding value if there is one, and else the default's,
      unless the override puts a value where the default has a table on the way. */
  lemma {:induction false} OverrideWinsElseDefault(base: Entries, override: Entries, path: seq<string>, value: string)
    requires path != []
    ensures Get(Merged(base, override), path) == Some(Leaf(value)) <==>
      || Get(override, path) == Some(Leaf(value))
      || (Get(override, path) == None && !Blocks(override, path) && Get(base, path) == Some(Leaf(value)))
    decreases |path|
  {
    if |path| > 1 && path[0] in base && path[0] in override && base[path[0]].Table? && override[path[0]].Table? {
      OverrideWinsElseDefault(base[path[0]].entries, override[path[0]].entries, path[1..], value);
    }
  }
}
