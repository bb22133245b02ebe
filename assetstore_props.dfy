/** Properties of the asset-metadata record that relate several operations:
    the whitelist of `set_attrs`, the `to_mongo`/`from_mongo` round trip and
    the key that no update path touches. */
module AssetStoreProps {
  import opened Values
  import opened AssetStore

  /** Whatever order the dictionary yields its items in, the loop of
      `set_attrs` ends in the same state: the overlay of the whitelisted
      keys. */
  lemma {:induction false} SetAttrsAnyOrder(a: Attrs, items: seq<(string, Value)>, d: map<string, Value>)
    requires Enumerates(items, d)
    ensures ApplyItems(a, items) == Overlay(a, d)
    decreases |items|
  {
    if items == [] {
      assert d == map[];
    } else {
      var (k, v) := items[0];
      var a' := if Lookup(k).Some? then Set(a, Lookup(k).value, v) else a;
      EnumeratesTail(items, d);
      SetAttrsAnyOrder(a', items[1..], d - {k});
      OverlayAfterStep(a, d, k);
    }
  }

  /** Once the first item is handled, the rest enumerate the other keys. */
  lemma EnumeratesTail(items: seq<(string, Value)>, d: map<string, Value>)
    requires Enumerates(items, d) && items != []
    ensures Enumerates(items[1..], d - {items[0].0})
  {
    var d' := d - {items[0].0};
    forall k' | k' in d' ensures exists i :: 0 <= i < |items[1..]| && items[1..][i].0 == k' {
      var i :| 0 <= i < |items| && items[i].0 == k';
      assert items[1..][i - 1].0 == k';
    }
  }

  /** Writing key `k` first and overlaying the other keys afterwards is the
      overlay of the whole dictionary. */
  lemma OverlayAfterStep(a: Attrs, d: map<string, Value>, k: string)
    requires k in d
    ensures Overlay(if Lookup(k).Some? then Set(a, Lookup(k).value, d[k]) else a, d - {k}) == Overlay(a, d)
  {
    var a' := if Lookup(k).Some? then Set(a, Lookup(k).value, d[k]) else a;
    var lhs, rhs := Overlay(a', d - {k}), Overlay(a, d);
    forall n ensures Get(lhs, n) == Get(rhs, n) {
      if n.Key() == k {
        assert Lookup(k) == Some(n) by { AttrGroups(); }
        assert Get(lhs, n) == Get(a', n) == d[k];
      } else {
        assert (n.Key() in d - {k}) == (n.Key() in d);
        if Lookup(k).Some? {
          assert Lookup(k).value != n;
        }
      }
    }
    AttrsExtensionality(lhs, rhs);
  }

  /** A key outside `ALLOWED_ATTRS` has no effect on `set_attrs`, whatever
      value it carries. */
  lemma UnknownKeyIgnored(a: Attrs, d: map<string, Value>, k: string, v: Value)
    requires Lookup(k).None?
    ensures Overlay(a, d[k := v]) == Overlay(a, d)
  {
    forall n ensures Get(Overlay(a, d[k := v]), n) == Get(Overlay(a, d), n) {
    }
    AttrsExtensionality(Overlay(a, d[k := v]), Overlay(a, d));
  }

  /** Only the whitelisted part of the dictionary matters; in particular a
      dictionary with no whitelisted key leaves every attribute as it was. */
  lemma OnlyAllowedKeysMatter(a: Attrs, d: map<string, Value>)
    ensures Overlay(a, d) == Overlay(a, map k | k in d && Lookup(k).Some? :: d[k])
    ensures (forall k :: k in d ==> Lookup(k).None?) ==> Overlay(a, d) == a
  {
    var w := map k | k in d && Lookup(k).Some? :: d[k];
    forall n ensures Get(Overlay(a, d), n) == Get(Overlay(a, w), n) {
      if n.Key() in d {
        assert Lookup(n.Key()).Some?;
      }
    }
    AttrsExtensionality(Overlay(a, d), Overlay(a, w));
    if forall k :: k in d ==> Lookup(k).None? {
      forall n ensures Get(Overlay(a, d), n) == Get(a, n) {
        assert n.Key() in d ==> Lookup(n.Key()).None?;
      }
      AttrsExtensionality(Overlay(a, d), a);
    }
  }

  /** Applying the same dictionary twice is the same as applying it once. */
  lemma SetAttrsIdempotent(a: Attrs, d: map<string, Value>)
    ensures Overlay(Overlay(a, d), d) == Overlay(a, d)
  {
    forall n ensures Get(Overlay(Overlay(a, d), d), n) == Get(Overlay(a, d), n) {
    }
    AttrsExtensionality(Overlay(Overlay(a, d), d), Overlay(a, d));
  }

  /** `Fill` reads nothing of a dictionary but the names it is given. */
  lemma {:induction false} FillReadsOnlyNames(a: Attrs, e: map<string, Value>, e': map<string, Value>, names: seq<AttrName>)
    requires forall n :: n in names ==> (n.Key() in e <==> n.Key() in e') && (n.Key() in e ==> e[n.Key()] == e'[n.Key()])
    ensures Fill(a, Dict(e), names) == Fill(a, Dict(e'), names)
    decreases |names|
  {
    if names != [] {
      FillStep(a, Dict(e), names);
      FillStep(a, Dict(e'), names);
      if names[0].Key() in e {
        FillReadsOnlyNames(Set(a, names[0], e[names[0].Key()]), e, e', names[1..]);
      }
    }
  }

  /** `from_mongo` never looks at the `filename` entry (the one that carries
      the key's path): the key is set at construction only. */
  lemma FromMongoIgnoresFilename(a: Attrs, e: map<string, Value>, x: Value)
    ensures ReadDoc(a, Dict(e["filename" := x])) == ReadDoc(a, Dict(e))
  {
    var e' := e["filename" := x];
    assert Lookup("filename").None?;
    FillReadsOnlyNames(a, e', e, TopLevelAttrs);
    if "edit_info" in e {
      assert e'["edit_info"] == e["edit_info"];
    }
  }

  /** What `to_mongo` produces is a document `from_mongo` reads without
      raising. */
  lemma ToMongoWellFormed(m: AssetMetadata)
    ensures WellFormedDoc(m.ToMongo())
  {
    var doc := m.ToMongo();
    AttrGroups();
    assert Readable(doc, TopLevelAttrs) by {
      forall n | n in TopLevelAttrs ensures Subscript(doc, n.Key()).Ok? {
        assert n.Key() in doc.entries.Keys;
      }
    }
    assert Readable(doc.entries["edit_info"], EditInfoAttrs) by {
      forall n | n in EditInfoAttrs ensures Subscript(doc.entries["edit_info"], n.Key()).Ok? {
        assert n.Key() in doc.entries["edit_info"].entries.Keys;
      }
    }
  }

  /** Round trip: reading back what `to_mongo` wrote restores all seven
      attributes, whatever the reader held before, and raises nothing. */
  lemma RoundTrip(m: AssetMetadata, b: Attrs)
    ensures ReadDoc(b, m.ToMongo()) == (m.Snapshot(), None)
  {
    var doc := m.ToMongo();
    ToMongoWellFormed(m);
    ReadDocWellFormed(b, doc);
    ReadDocRaises(b, doc);
    AttrGroups();
    var r := ReadDoc(b, doc).0;
    forall n ensures Get(r, n) == Get(m.Snapshot(), n) {
    }
    AttrsExtensionality(r, m.Snapshot());
  }

  /** A document whose top level is complete but which lacks `edit_info`
      leaves the top-level attributes overwritten and the edit attributes
      untouched: `from_mongo` is not atomic. */
  lemma FromMongoStopsPartWay(a: Attrs, e: map<string, Value>)
    requires forall n :: n in TopLevelAttrs ==> n.Key() in e
    requires "edit_info" !in e
    ensures ReadDoc(a, Dict(e)).1 == Some(KeyError("edit_info"))
    ensures forall n :: n in TopLevelAttrs ==> Get(ReadDoc(a, Dict(e)).0, n) == e[n.Key()]
    ensures forall n :: n in EditInfoAttrs ==> Get(ReadDoc(a, Dict(e)).0, n) == Get(a, n)
  {
    AttrGroups();
    assert Readable(Dict(e), TopLevelAttrs);
    FillRaises(a, Dict(e), TopLevelAttrs);
    FillReads(a, Dict(e), TopLevelAttrs);
    FillFrame(a, Dict(e), TopLevelAttrs);
  }

  /** `b.from_mongo(a.to_mongo())`: afterwards `b` holds `a`'s seven
      attributes and keeps its own key, so it still equals exactly the
      records it equalled before. */
  method CopyThroughMongo(a: AssetMetadata, b: AssetMetadata) returns (raised: Option<Error>)
    modifies b
    ensures raised == None
    ensures b.Snapshot() == old(a.Snapshot())
    ensures b.assetId == old(b.assetId)
  {
    var doc := a.ToMongo();
    RoundTrip(a, b.Snapshot());
    raised := b.FromMongo(doc);
  }

  /** `__eq__` is an equivalence relation, since it compares keys only. */
  lemma EqualsIsEquivalence(x: AssetMetadata, y: AssetMetadata, z: AssetMetadata)
    ensures x.Equals(x)
    ensures x.Equals(y) ==> y.Equals(x)
    ensures x.Equals(y) && y.Equals(z) ==> x.Equals(z)
  {
  }
}
