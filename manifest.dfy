/**
 * The application's `package.json` and the routine that rewrites one of its
 * dependency fields (`updateNodePackages`). The file is modelled by whether it
 * exists, its decoded top-level object, and a count of the writes made to it.
 */
module Manifest {
  import opened PhpArray
  import opened KeySort

  /** The callable `updateNodePackages` receives: current mapping and field name in, new mapping out. */
  type Callback = (Assoc, string) -> Assoc

  /** `devDependencies` for development packages, `dependencies` otherwise. */
  function ConfigurationKey(dev: bool): (key: string)
    ensures key == "devDependencies" <==> dev
    ensures key == "dependencies" <==> !dev
  {
    if dev then "devDependencies" else "dependencies"
  }

  /** What the callback is handed: the field's mapping when the field exists, else the empty array. */
  function Existing(fields: map<string, Assoc>, key: string): Assoc {
    if key in fields then fields[key] else []
  }

  /**
   * The decoded manifest after `updateNodePackages(callback, dev)` on `fields`:
   * the chosen field is present and key-ascending, with the callback's entries;
   * every other field is kept.
   */
  function Updated(fields: map<string, Assoc>, callback: Callback, dev: bool): (after: map<string, Assoc>)
    ensures ConfigurationKey(dev) in after && KeysAscending(after[ConfigurationKey(dev)])
    ensures multiset(after[ConfigurationKey(dev)])
         == multiset(callback(Existing(fields, ConfigurationKey(dev)), ConfigurationKey(dev)))
    ensures forall f :: f in fields && f != ConfigurationKey(dev) ==> f in after && after[f] == fields[f]
  {
    var key := ConfigurationKey(dev);
    var sorted := KSorted(callback(Existing(fields, key), key));
    AscendingDistinct(sorted);
    fields[key := sorted]
  }

  class PackageJson {
    /** Whether `package.json` exists in the application's base path. */
    var present: bool
    /** The file's decoded top-level object: field name to package mapping. */
    var fields: map<string, Assoc>
    /** How many times the file has been written. */
    var writes: nat

    constructor (present: bool, fields: map<string, Assoc>)
      ensures this.present == present && this.fields == fields && writes == 0
    {
      this.present := present;
      this.fields := fields;
      writes := 0;
    }

    /**
     * Replaces the dependency field chosen by `dev` with the callback's result,
     * sorts that field by key in place and writes the file back once; does
     * nothing when the file does not exist.
     */
    method UpdateNodePackages(callback: Callback, dev: bool := true)
      modifies this
      ensures present == old(present)
      ensures !old(present) ==> fields == old(fields) && writes == old(writes)
      ensures old(present) ==> fields == Updated(old(fields), callback, dev) && writes == old(writes) + 1
    {
      if !present {
        return;
      }
      var key := ConfigurationKey(dev);
      var packages := fields;
      var given := callback(if key in packages then packages[key] else [], key);
      var a := new Entry[|given|](i requires 0 <= i < |given| => given[i]);
      assert a[..] == given;
      KSort(a);
      AscendingDistinct(a[..]);
      packages := packages[key := a[..]];
      fields := packages;
      writes := writes + 1;
    }
  }

  /**
   * Only the chosen field changes: it is `devDependencies` exactly when `dev`
   * holds, it is present afterwards, and every other field keeps its value.
   */
  lemma UpdateChangesOnlyTarget(fields: map<string, Assoc>, callback: Callback, dev: bool)
    ensures var after := Updated(fields, callback, dev);
      && after.Keys == fields.Keys + {if dev then "devDependencies" else "dependencies"}
      && forall f :: (f in fields && f != (if dev then "devDependencies" else "dependencies"))
                       ==> f in after && after[f] == fields[f]
  {
  }

  /**
   * The chosen field ends up holding exactly the callback's entries, with keys
   * ascending; the callback was handed the field's old mapping, or the empty
   * array when the field was absent, together with the field's name.
   */
  lemma UpdatedFieldIsSortedCallbackResult(fields: map<string, Assoc>, callback: Callback, dev: bool)
    ensures var key := ConfigurationKey(dev);
      var after := Updated(fields, callback, dev)[key];
      && KeysAscending(after)
      && (key in fields ==> multiset(after) == multiset(callback(fields[key], key)))
      && (key !in fields ==> multiset(after) == multiset(callback([], key)))
      && forall k :: Lookup(after, k) == Lookup(callback(Existing(fields, key), key), k)
  {
    var key := ConfigurationKey(dev);
    var given := callback(Existing(fields, key), key);
    forall k ensures Lookup(Updated(fields, callback, dev)[key], k) == Lookup(given, k) {
      AscendingDistinct(KSorted(given));
      LookupPermutation(KSorted(given), given, k);
    }
  }

  /** Running the update a second time with a callback that returns its input changes nothing. */
  lemma UpdateIdempotent(fields: map<string, Assoc>, callback: Callback, dev: bool)
    ensures var once := Updated(fields, callback, dev);
      Updated(once, (packages, key) => packages, dev) == once
  {
    var key := ConfigurationKey(dev);
    var once := Updated(fields, callback, dev);
    KSortedAscending(once[key]);
    assert Updated(once, (packages, key) => packages, dev)[key] == once[key];
  }

  /** The packages `replaceWindmill` puts in front of the existing development dependencies. */
  const WindmillPackages: Assoc := [("color", "^4.0.1"), ("tailwindcss-multi-theme", "^1.0.4")]

  /**
   * The closure `replaceWindmill` passes: `WindmillPackages + $packages`. The
   * two theme packages get their pinned versions whatever was there before;
   * every other entry is kept as it was, and nothing else is added.
   */
  function WindmillCallback(packages: Assoc, key: string): (merged: Assoc)
    ensures Lookup(merged, "color") == Some("^4.0.1")
    ensures Lookup(merged, "tailwindcss-multi-theme") == Some("^1.0.4")
    ensures forall k :: k != "color" && k != "tailwindcss-multi-theme" ==> Lookup(merged, k) == Lookup(packages, k)
    ensures KeySet(merged) == KeySet(packages) + {"color", "tailwindcss-multi-theme"}
  {
    var merged := Union(WindmillPackages, packages);
    assert KeySet(WindmillPackages) == {"color", "tailwindcss-multi-theme"} by {
      KeySetCons(WindmillPackages);
      KeySetCons(WindmillPackages[1..]);
    }
    LookupUnion(WindmillPackages, packages, "color");
    LookupUnion(WindmillPackages, packages, "tailwindcss-multi-theme");
    forall k ensures k != "color" && k != "tailwindcss-multi-theme" ==> Lookup(merged, k) == Lookup(packages, k) {
      LookupUnion(WindmillPackages, packages, k);
    }
    merged
  }

  /**
   * The whole windmill manifest update: `devDependencies` pins the two theme
   * packages, keeps every other development dependency, ends up key-ascending,
   * and no other field of the manifest changes.
   */
  lemma WindmillUpdate(fields: map<string, Assoc>)
    ensures var after := Updated(fields, WindmillCallback, true);
      var dev := after["devDependencies"];
      && KeysAscending(dev)
      && Lookup(dev, "color") == Some("^4.0.1")
      && Lookup(dev, "tailwindcss-multi-theme") == Some("^1.0.4")
      && (forall k :: k != "color" && k != "tailwindcss-multi-theme"
            ==> Lookup(dev, k) == Lookup(Existing(fields, "devDependencies"), k))
      && forall f :: f in fields && f != "devDependencies" ==> f in after && after[f] == fields[f]
  {
    UpdatedFieldIsSortedCallbackResult(fields, WindmillCallback, true);
  }

  /**
   * A worked case: adding `a` to a `devDependencies` holding only `b` yields
   * `{"a": "2", "b": "1"}` in that order, and `dependencies` stays empty.
   */
  lemma AddToDevDependenciesExample()
    ensures var fields := map["devDependencies" := [("b", "1")], "dependencies" := []];
      var after := Updated(fields, (packages, key) => Union(packages, [("a", "2")]), true);
      after["devDependencies"] == [("a", "2"), ("b", "1")] && after["dependencies"] == []
  {
    var fields: map<string, Assoc> := map["devDependencies" := [("b", "1")], "dependencies" := []];
    var add: Callback := (packages, key) => Union(packages, [("a", "2")]);
    var b: Assoc := [("b", "1")];
    var a: Assoc := [("a", "2")];
    assert KeySet(b) == {"b"} by { KeySetCons(b); }
    assert Without(a, {"b"}) == a by { assert a[1..] == []; }
    var given := add(fields["devDependencies"], "devDependencies");
    assert given == b + a;
    var sorted := [("a", "2"), ("b", "1")];
    assert Less("a", "b");
    assert KeysAscending(sorted);
    assert multiset(given) == multiset(sorted);
    AscendingPermutationUnique(KSorted(given), sorted);
  }
}
