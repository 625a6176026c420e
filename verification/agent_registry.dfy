/**
 * The agent registry both src/configLoader.ts and src/codeAgent.ts work on:
 * a JavaScript object from agent names to `{ cmd: string[] }` entries. An
 * object is modelled as its (key, entry) pairs in property enumeration
 * order; assigning to a key that is already there keeps its place, a new
 * key goes last. Both files declare the same three built-in agents.
 */
module AgentRegistry {
  import opened Types

  datatype RegistryEntry = RegistryEntry(cmd: seq<string>)

  type Registry = seq<(string, RegistryEntry)>

  /** `{ default, registry }` as the loader builds it and the agent reads it. */
  datatype AgentConfig = AgentConfig(defaultAgent: string, registry: Registry)

  predicate HasKey(reg: Registry, key: string) {
    exists i :: 0 <= i < |reg| && reg[i].0 == key
  }

  /** `registry[key]`: `None` is `undefined`. */
  function Lookup(reg: Registry, key: string): (r: Option<RegistryEntry>)
    ensures r.Some? <==> HasKey(reg, key)
    ensures r.Some? ==> exists i :: 0 <= i < |reg| && reg[i] == (key, r.value)
  {
    if reg == [] then None
    else if reg[0].0 == key then Some(reg[0].1)
    else
      var r := Lookup(reg[1..], key);
      assert r.Some? ==> reg[1..][0].0 == reg[1].0;
      r
  }

  /** `Object.keys(registry)`. */
  function KeysOf(reg: Registry): (ks: seq<string>)
    ensures |ks| == |reg| && forall i :: 0 <= i < |ks| ==> ks[i] == reg[i].0
  {
    if reg == [] then [] else [reg[0].0] + KeysOf(reg[1..])
  }

  /** What a JavaScript object always is: no key twice. */
  predicate DistinctKeys(reg: Registry) {
    forall i, j :: 0 <= i < j < |reg| ==> reg[i].0 != reg[j].0
  }

  /** `registry[key] = entry`. */
  function Put(reg: Registry, key: string, entry: RegistryEntry): (r: Registry)
    ensures HasKey(reg, key) ==> KeysOf(r) == KeysOf(reg)
    ensures !HasKey(reg, key) ==> r == reg + [(key, entry)]
  {
    if reg == [] then [(key, entry)]
    else if reg[0].0 == key then [(key, entry)] + reg[1..]
    else
      var rest := Put(reg[1..], key, entry);
      assert KeysOf([reg[0]] + rest) == [reg[0].0] + KeysOf(rest);
      [reg[0]] + rest
  }

  /** After `registry[key] = entry` the key reads `entry`. */
  lemma {:induction false} PutReadsEntry(reg: Registry, key: string, entry: RegistryEntry)
    ensures Lookup(Put(reg, key, entry), key) == Some(entry)
  {
    if reg != [] && reg[0].0 != key {
      PutReadsEntry(reg[1..], key, entry);
      assert ([reg[0]] + Put(reg[1..], key, entry))[1..] == Put(reg[1..], key, entry);
    }
  }

  /** `registry[key] = entry` leaves what every other key reads alone. */
  lemma {:induction false} PutKeepsOthers(reg: Registry, key: string, entry: RegistryEntry, other: string)
    requires other != key
    ensures Lookup(Put(reg, key, entry), other) == Lookup(reg, other)
  {
    if reg != [] && reg[0].0 != key {
      PutKeepsOthers(reg[1..], key, entry, other);
      assert ([reg[0]] + Put(reg[1..], key, entry))[1..] == Put(reg[1..], key, entry);
    }
  }

  /** `registry[key] = entry` keeps the keys distinct. */
  lemma PutKeepsDistinct(reg: Registry, key: string, entry: RegistryEntry)
    requires DistinctKeys(reg)
    ensures DistinctKeys(Put(reg, key, entry))
  {
    var r := Put(reg, key, entry);
    if HasKey(reg, key) {
      forall i, j | 0 <= i < j < |r|
        ensures r[i].0 != r[j].0
      {
        assert KeysOf(r)[i] == KeysOf(reg)[i] && KeysOf(r)[j] == KeysOf(reg)[j];
      }
    }
  }

  /** `{ ...base, ...over }`: every key of `over`, in its order, assigned onto a copy of `base`. */
  function Overlay(base: Registry, over: Registry): Registry
    decreases |over|
  {
    if over == [] then base else Overlay(Put(base, over[0].0, over[0].1), over[1..])
  }

  /** Spreading an object with distinct keys: its keys read its entries, the others read what `base` had. */
  lemma {:induction false} OverlayLookup(base: Registry, over: Registry, key: string)
    requires DistinctKeys(over)
    ensures Lookup(Overlay(base, over), key) == if HasKey(over, key) then Lookup(over, key) else Lookup(base, key)
    decreases |over|
  {
    if over != [] {
      var next := Put(base, over[0].0, over[0].1);
      assert DistinctKeys(over[1..]) by {
        forall i, j | 0 <= i < j < |over| - 1
          ensures over[1..][i].0 != over[1..][j].0
        {
          assert over[1..][i] == over[i + 1] && over[1..][j] == over[j + 1];
        }
      }
      OverlayLookup(next, over[1..], key);
      assert HasKey(over, key) <==> over[0].0 == key || HasKey(over[1..], key) by {
        if HasKey(over, key) {
          var i :| 0 <= i < |over| && over[i].0 == key;
          if i > 0 {
            assert over[1..][i - 1] == over[i];
          }
        }
        if HasKey(over[1..], key) {
          var i :| 0 <= i < |over[1..]| && over[1..][i].0 == key;
          assert over[i + 1] == over[1..][i];
        }
      }
      if over[0].0 == key {
        PutReadsEntry(base, key, over[0].1);
        assert !HasKey(over[1..], key) by {
          forall i | 0 <= i < |over[1..]|
            ensures over[1..][i].0 != key
          {
            assert over[1..][i] == over[i + 1];
          }
        }
      } else {
        PutKeepsOthers(base, over[0].0, over[0].1, key);
      }
    }
  }

  /** Spreading keeps the keys distinct. */
  lemma {:induction false} OverlayDistinct(base: Registry, over: Registry)
    requires DistinctKeys(base)
    ensures DistinctKeys(Overlay(base, over))
    decreases |over|
  {
    if over != [] {
      PutKeepsDistinct(base, over[0].0, over[0].1);
      OverlayDistinct(Put(base, over[0].0, over[0].1), over[1..]);
    }
  }

  const CodexArgs := ["exec", "--sandbox", "workspace-write", "--skip-git-repo-check", "-"]

  const BuiltinRegistry: Registry := [
    ("codex", RegistryEntry(["codex"] + CodexArgs)),
    ("gemini", RegistryEntry(["gemini", "--approval-mode", "auto_edit"])),
    ("claude", RegistryEntry(["claude", "--allowedTools", "Read,Write,Bash", "--output-format", "json", "-p", "--verbose"]))
  ]

  /** The three built-in agents, each under its own key. */
  lemma BuiltinKeys()
    ensures DistinctKeys(BuiltinRegistry)
    ensures KeysOf(BuiltinRegistry) == ["codex", "gemini", "claude"]
    ensures HasKey(BuiltinRegistry, "codex") && HasKey(BuiltinRegistry, "gemini") && HasKey(BuiltinRegistry, "claude")
  {
    assert BuiltinRegistry[0].0 == "codex";
    assert BuiltinRegistry[1].0 == "gemini";
    assert BuiltinRegistry[2].0 == "claude";
  }
}
