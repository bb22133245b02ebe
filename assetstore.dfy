/** The metadata record the modulestore keeps for one course asset, with its
    whitelisted attribute update and its mapping to and from a Mongo document
    (common/lib/xmodule/xmodule/assetstore/__init__.py). */
module AssetStore {
  import opened Values

  /** The key that identifies an asset. Only equality and `path` are used. */
  datatype AssetKey = AssetKey(course: string, assetType: string, path: string)

  /** The seven attributes an update may write, by name; `asset_id` is not
      among them. */
  datatype AttrName =
    | Basename | InternalName | Locked
    | CurrVersion | PrevVersion | EditedBy | EditedOn
  {
    /** The attribute's Python name, which is also its key in a document. */
    function Key(): string {
      match this
      case Basename => "basename"
      case InternalName => "internal_name"
      case Locked => "locked"
      case CurrVersion => "curr_version"
      case PrevVersion => "prev_version"
      case EditedBy => "edited_by"
      case EditedOn => "edited_on"
    }
  }

  /** `TOP_LEVEL_ATTRS`: stored at the top level of the Mongo document. */
  const TopLevelAttrs: seq<AttrName> := [Basename, InternalName, Locked]

  /** `EDIT_INFO_ATTRS`: the edit provenance, stored under `edit_info`. */
  const EditInfoAttrs: seq<AttrName> := [CurrVersion, PrevVersion, EditedBy, EditedOn]

  /** `ALLOWED_ATTRS`: the two groups together. */
  const AllowedAttrs: seq<AttrName> := TopLevelAttrs + EditInfoAttrs

  /** The two groups are disjoint and cover every attribute, and no two
      attributes share a key. */
  lemma AttrGroups()
    ensures forall n :: n in AllowedAttrs
    ensures forall n :: n in TopLevelAttrs <==> n !in EditInfoAttrs
    ensures forall m: AttrName, n: AttrName :: m.Key() == n.Key() ==> m == n
  {
    forall n: AttrName ensures n in AllowedAttrs && (n in TopLevelAttrs <==> n !in EditInfoAttrs) {
      match n
      case Basename => assert TopLevelAttrs[0] == n;
      case InternalName => assert TopLevelAttrs[1] == n;
      case Locked => assert TopLevelAttrs[2] == n;
      case CurrVersion => assert EditInfoAttrs[0] == n;
      case PrevVersion => assert EditInfoAttrs[1] == n;
      case EditedBy => assert EditInfoAttrs[2] == n;
      case EditedOn => assert EditInfoAttrs[3] == n;
    }
  }

  /** `attr in ALLOWED_ATTRS`: the attribute a dictionary key names, if it
      names a whitelisted one. */
  function Lookup(key: string): (r: Option<AttrName>)
    ensures r.Some? ==> r.value.Key() == key && r.value in AllowedAttrs
    ensures r.None? ==> forall n: AttrName :: n.Key() != key
  {
    if key == "basename" then Some(Basename)
    else if key == "internal_name" then Some(InternalName)
    else if key == "locked" then Some(Locked)
    else if key == "curr_version" then Some(CurrVersion)
    else if key == "prev_version" then Some(PrevVersion)
    else if key == "edited_by" then Some(EditedBy)
    else if key == "edited_on" then Some(EditedOn)
    else None
  }

  /** The seven attributes of an asset besides its identifying key. */
  datatype Attrs = Attrs(
    basename: Value,
    internalName: Value,
    locked: Value,
    currVersion: Value,
    prevVersion: Value,
    editedBy: Value,
    editedOn: Value)

  /** The attribute `n`, as `getattr` would read it. */
  function Get(a: Attrs, n: AttrName): Value {
    match n
    case Basename => a.basename
    case InternalName => a.internalName
    case Locked => a.locked
    case CurrVersion => a.currVersion
    case PrevVersion => a.prevVersion
    case EditedBy => a.editedBy
    case EditedOn => a.editedOn
  }

  /** `setattr` on a whitelisted name: that one attribute changes. */
  function Set(a: Attrs, n: AttrName, v: Value): (r: Attrs)
    ensures forall m {:trigger Get(r, m)} :: Get(r, m) == if m == n then v else Get(a, m)
  {
    match n
    case Basename => a.(basename := v)
    case InternalName => a.(internalName := v)
    case Locked => a.(locked := v)
    case CurrVersion => a.(currVersion := v)
    case PrevVersion => a.(prevVersion := v)
    case EditedBy => a.(editedBy := v)
    case EditedOn => a.(editedOn := v)
  }

  /** Two attribute records that agree on every attribute are equal. */
  lemma AttrsExtensionality(a: Attrs, b: Attrs)
    requires forall n :: Get(a, n) == Get(b, n)
    ensures a == b
  {
    assert Get(a, Basename) == Get(b, Basename);
    assert Get(a, InternalName) == Get(b, InternalName);
    assert Get(a, Locked) == Get(b, Locked);
    assert Get(a, CurrVersion) == Get(b, CurrVersion);
    assert Get(a, PrevVersion) == Get(b, PrevVersion);
    assert Get(a, EditedBy) == Get(b, EditedBy);
    assert Get(a, EditedOn) == Get(b, EditedOn);
  }

  function Pick(d: map<string, Value>, n: AttrName, current: Value): Value {
    if n.Key() in d then d[n.Key()] else current
  }

  /** What `set_attrs(d)` leaves behind: every whitelisted key of `d` wins,
      every other attribute keeps its value, and keys outside the whitelist
      have no effect. */
  function Overlay(a: Attrs, d: map<string, Value>): (r: Attrs)
    ensures forall n {:trigger Get(r, n)} :: Get(r, n) == if n.Key() in d then d[n.Key()] else Get(a, n)
  {
    Attrs(
      Pick(d, Basename, a.basename),
      Pick(d, InternalName, a.internalName),
      Pick(d, Locked, a.locked),
      Pick(d, CurrVersion, a.currVersion),
      Pick(d, PrevVersion, a.prevVersion),
      Pick(d, EditedBy, a.editedBy),
      Pick(d, EditedOn, a.editedOn))
  }

  /** The loop of `set_attrs` run over the dictionary's items in one given
      iteration order; `AssetMetadata.SetAttrs` ends in this state for the
      order it took the items in. */
  function ApplyItems(a: Attrs, items: seq<(string, Value)>): Attrs
    decreases |items|
  {
    if items == [] then a
    else
      var (attr, val) := items[0];
      match Lookup(attr)
      case Some(n) => ApplyItems(Set(a, n, val), items[1..])
      case None => ApplyItems(a, items[1..])
  }

  /** `items` lists the entries of `d`, each key once, in some order: what
      iterating over a dictionary's items yields. */
  ghost predicate Enumerates(items: seq<(string, Value)>, d: map<string, Value>) {
    && (forall i, j :: 0 <= i < j < |items| ==> items[i].0 != items[j].0)
    && (forall i :: 0 <= i < |items| ==> items[i].0 in d && d[items[i].0] == items[i].1)
    && (forall k :: k in d ==> exists i :: 0 <= i < |items| && items[i].0 == k)
  }

  /** Handling one more item after the others is one more loop step. */
  lemma {:induction false} ApplyItemsSnoc(a: Attrs, items: seq<(string, Value)>, k: string, v: Value)
    ensures ApplyItems(a, items + [(k, v)]) ==
      if Lookup(k).Some? then Set(ApplyItems(a, items), Lookup(k).value, v) else ApplyItems(a, items)
    decreases |items|
  {
    if items == [] {
      assert [] + [(k, v)] == [(k, v)];
      assert [(k, v)][1..] == [];
    } else {
      assert (items + [(k, v)])[1..] == items[1..] + [(k, v)];
      var a' := if Lookup(items[0].0).Some? then Set(a, Lookup(items[0].0).value, items[0].1) else a;
      ApplyItemsSnoc(a', items[1..], k, v);
    }
  }

  /** Taking key `k` out of the pending keys extends the enumeration of
      the keys already handled by `k`'s item. */
  lemma EnumeratesSnoc(items: seq<(string, Value)>, d: map<string, Value>, pending: set<string>, k: string)
    requires pending <= d.Keys && k in pending
    requires Enumerates(items, d - pending)
    ensures Enumerates(items + [(k, d[k])], d - (pending - {k}))
  {
    var items' := items + [(k, d[k])];
    forall k' | k' in d && k' !in pending - {k} ensures exists i :: 0 <= i < |items'| && items'[i].0 == k' {
      if k' == k {
        assert items'[|items|].0 == k';
      } else {
        assert k' in d - pending;
        var i :| 0 <= i < |items| && items[i].0 == k';
        assert items'[i].0 == k';
      }
    }
  }

  /** Every attribute of `names` can be read from `src` by subscripting. */
  ghost predicate Readable(src: Value, names: seq<AttrName>) {
    forall n :: n in names ==> Subscript(src, n.Key()).Ok?
  }

  /** Reads `src[n]` for each attribute `n` of `names` in order and stores it
      in that attribute, stopping at the first subscript that raises: the
      attributes read before the failure stay written. */
  function Fill(a: Attrs, src: Value, names: seq<AttrName>): (Attrs, Option<Error>)
    decreases |names|
  {
    if names == [] then (a, None)
    else
      match Subscript(src, names[0].Key())
      case Err(e) => (a, Some(e))
      case Ok(v) => Fill(Set(a, names[0], v), src, names[1..])
  }

  /** One step of `Fill`: the first attribute is read, then the rest. */
  lemma FillStep(a: Attrs, src: Value, names: seq<AttrName>)
    requires names != []
    ensures Subscript(src, names[0].Key()).Err? ==>
      Fill(a, src, names) == (a, Some(Subscript(src, names[0].Key()).error))
    ensures Subscript(src, names[0].Key()).Ok? ==>
      Fill(a, src, names) == Fill(Set(a, names[0], Subscript(src, names[0].Key()).value), src, names[1..])
  {
  }

  /** `Fill` raises exactly when some attribute cannot be read: a
      `TypeError` when the source is not a dict, otherwise a `KeyError` for
      the key of one of the attributes it was asked to read. */
  lemma {:induction false} FillRaises(a: Attrs, src: Value, names: seq<AttrName>)
    ensures var r := Fill(a, src, names); r.1.None? <==> Readable(src, names)
    ensures var r := Fill(a, src, names); r.1.Some? ==>
      (!src.Dict? && r.1.value == TypeError) ||
      (src.Dict? && r.1.value.KeyError? && r.1.value.key !in src.entries &&
       exists n :: n in names && n.Key() == r.1.value.key)
    decreases |names|
  {
    if names != [] && Subscript(src, names[0].Key()).Ok? {
      FillRaises(Set(a, names[0], Subscript(src, names[0].Key()).value), src, names[1..]);
      var r := Fill(a, src, names);
      if r.1.Some? && src.Dict? {
        var n :| n in names[1..] && n.Key() == r.1.value.key;
        assert n in names;
      }
    }
  }

  /** Attributes `Fill` is not asked to read keep their values. */
  lemma {:induction false} FillFrame(a: Attrs, src: Value, names: seq<AttrName>)
    ensures var r := Fill(a, src, names); forall n :: n !in names ==> Get(r.0, n) == Get(a, n)
    decreases |names|
  {
    if names != [] && Subscript(src, names[0].Key()).Ok? {
      FillFrame(Set(a, names[0], Subscript(src, names[0].Key()).value), src, names[1..]);
    }
  }

  /** Whatever `Fill` writes comes from the source, and when it raises
      nothing every attribute read holds what the source holds under its
      key. */
  lemma {:induction false} FillReads(a: Attrs, src: Value, names: seq<AttrName>)
    ensures var r := Fill(a, src, names);
      forall n :: n in names ==> Get(r.0, n) == Get(a, n) || Subscript(src, n.Key()) == Ok(Get(r.0, n))
    ensures var r := Fill(a, src, names);
      r.1.None? ==> forall n :: n in names ==> Subscript(src, n.Key()) == Ok(Get(r.0, n))
    decreases |names|
  {
    if names != [] && Subscript(src, names[0].Key()).Ok? {
      FillFrame(Set(a, names[0], Subscript(src, names[0].Key()).value), src, names[1..]);
      FillReads(Set(a, names[0], Subscript(src, names[0].Key()).value), src, names[1..]);
    }
  }

  /** The run stops at the first attribute it cannot read, `names[j]`: it
      raises that subscript's exception, the attributes before it already
      hold the source's entries, and every other attribute is unchanged. */
  lemma {:induction false} FillStopsAtFirst(a: Attrs, src: Value, names: seq<AttrName>, j: nat)
    requires j < |names|
    requires forall i :: 0 <= i < j ==> Subscript(src, names[i].Key()).Ok?
    requires Subscript(src, names[j].Key()).Err?
    ensures Fill(a, src, names).1 == Some(Subscript(src, names[j].Key()).error)
    ensures forall n :: n in names[..j] ==> Subscript(src, n.Key()) == Ok(Get(Fill(a, src, names).0, n))
    ensures forall n :: n !in names[..j] ==> Get(Fill(a, src, names).0, n) == Get(a, n)
    decreases j
  {
    if j > 0 {
      var a' := Set(a, names[0], Subscript(src, names[0].Key()).value);
      assert Subscript(src, names[0].Key()).Ok?;
      FillStopsAtFirst(a', src, names[1..], j - 1);
      var r := Fill(a', src, names[1..]).0;
      assert Fill(a, src, names).0 == r;
      assert names[1..][j - 1] == names[j];
      assert names[..j] == [names[0]] + names[1..][..j - 1];
      forall n | n in names[..j] ensures Subscript(src, n.Key()) == Ok(Get(r, n)) {
        if n !in names[1..][..j - 1] {
          assert n == names[0] && Get(r, n) == Get(a', n);
        }
      }
      forall n | n !in names[..j] ensures Get(r, n) == Get(a, n) {
        assert n != names[0] && n !in names[1..][..j - 1];
      }
    }
  }

  /** A document that `from_mongo` reads through without raising. */
  ghost predicate WellFormedDoc(doc: Value) {
    && doc.Dict?
    && Readable(doc, TopLevelAttrs)
    && "edit_info" in doc.entries
    && Readable(doc.entries["edit_info"], EditInfoAttrs)
  }

  /** What `from_mongo(doc)` does to the attributes `a`, and the exception it
      raises if any. `None` changes nothing; a non-dict fails the assert;
      otherwise the top-level attributes, then `edit_info`, then the edit
      attributes are read in the source's order, and a missing key stops the
      update part-way. */
  function ReadDoc(a: Attrs, doc: Value): (r: (Attrs, Option<Error>))
    ensures doc.Null? ==> r == (a, None)
    ensures !doc.Null? && !doc.Dict? ==> r == (a, Some(AssertionError))
  {
    if doc.Null? then (a, None)
    else if !doc.Dict? then (a, Some(AssertionError))
    else
      var (top, raised) := Fill(a, doc, TopLevelAttrs);
      if raised.Some? then (top, raised)
      else
        match Subscript(doc, "edit_info")
        case Err(e) => (top, Some(e))
        case Ok(editInfo) => Fill(top, editInfo, EditInfoAttrs)
  }

  /** `from_mongo` raises nothing exactly on `None` and on well-formed
      documents. */
  lemma ReadDocRaises(a: Attrs, doc: Value)
    ensures ReadDoc(a, doc).1.None? <==> doc.Null? || WellFormedDoc(doc)
  {
    if doc.Dict? {
      var (top, raised) := Fill(a, doc, TopLevelAttrs);
      FillRaises(a, doc, TopLevelAttrs);
      if raised.None? && "edit_info" in doc.entries {
        FillRaises(top, doc.entries["edit_info"], EditInfoAttrs);
      }
    }
  }

  /** On a well-formed document `from_mongo` raises nothing and copies every
      attribute from the place where `to_mongo` puts it. */
  lemma ReadDocWellFormed(a: Attrs, doc: Value)
    requires WellFormedDoc(doc)
    ensures forall n :: n in TopLevelAttrs ==> doc.entries[n.Key()] == Get(ReadDoc(a, doc).0, n)
    ensures forall n :: n in EditInfoAttrs ==> doc.entries["edit_info"].entries[n.Key()] == Get(ReadDoc(a, doc).0, n)
  {
    var (top, raised) := Fill(a, doc, TopLevelAttrs);
    FillRaises(a, doc, TopLevelAttrs);
    FillReads(a, doc, TopLevelAttrs);
    var editInfo := doc.entries["edit_info"];
    assert ReadDoc(a, doc) == Fill(top, editInfo, EditInfoAttrs);
    var r := Fill(top, editInfo, EditInfoAttrs).0;
    FillFrame(top, editInfo, EditInfoAttrs);
    FillRaises(top, editInfo, EditInfoAttrs);
    FillReads(top, editInfo, EditInfoAttrs);
    AttrGroups();
    forall n | n in TopLevelAttrs ensures doc.entries[n.Key()] == Get(r, n) {
      assert Get(r, n) == Get(top, n);
    }
  }

  /** `AssetMetadata`: the asset's key and its seven attributes, updated in
      place. */
  class AssetMetadata {
    var assetId: AssetKey
    var basename: Value
    var internalName: Value
    var locked: Value
    var currVersion: Value
    var prevVersion: Value
    var editedBy: Value
    var editedOn: Value

    /** The seven non-key attributes as one value. */
    function Snapshot(): Attrs
      reads this
    {
      Attrs(basename, internalName, locked, currVersion, prevVersion, editedBy, editedOn)
    }

    /** Every attribute not given is `None`; extra keyword arguments are
        accepted and stored nowhere. `kwargs` holds only the extra names:
        Python binds the key and the seven attribute names to their own
        parameters. */
    constructor (assetId: AssetKey,
                 basename: Value := Null, internalName: Value := Null, locked: Value := Null,
                 currVersion: Value := Null, prevVersion: Value := Null,
                 editedBy: Value := Null, editedOn: Value := Null,
                 kwargs: map<string, Value> := map[])
      requires forall k :: k in kwargs ==> k != "asset_id" && Lookup(k).None?
      ensures this.assetId == assetId
      ensures Snapshot() == Attrs(basename, internalName, locked, currVersion, prevVersion, editedBy, editedOn)
    {
      this.assetId := assetId;
      this.basename := basename;
      this.internalName := internalName;
      this.locked := locked;
      this.currVersion := currVersion;
      this.prevVersion := prevVersion;
      this.editedBy := editedBy;
      this.editedOn := editedOn;
    }

    /** `__eq__`: two records are equal when their keys are, whatever their
        other attributes hold. */
    function Equals(other: AssetMetadata): (r: bool)
      reads this, other
      ensures r <==> assetId == other.assetId
    {
      assetId == other.assetId
    }

    /** `setattr(self, n, v)` for a whitelisted attribute. */
    method SetAttr(n: AttrName, v: Value)
      modifies this
      ensures assetId == old(assetId)
      ensures Snapshot() == Set(old(Snapshot()), n, v)
    {
      match n
      case Basename => basename := v;
      case InternalName => internalName := v;
      case Locked => locked := v;
      case CurrVersion => currVersion := v;
      case PrevVersion => prevVersion := v;
      case EditedBy => editedBy := v;
      case EditedOn => editedOn := v;
    }

    /** `set_attrs`: walks the dictionary in whatever order it yields its
        keys and writes the whitelisted ones; the key is never touched.
        `handled` is the order the items were taken in: the state is the
        loop body folded over that order, and also `Overlay`. */
    method SetAttrs(attrDict: map<string, Value>) returns (ghost handled: seq<(string, Value)>)
      modifies this
      ensures assetId == old(assetId)
      ensures Snapshot() == Overlay(old(Snapshot()), attrDict)
      ensures Enumerates(handled, attrDict)
      ensures Snapshot() == ApplyItems(old(Snapshot()), handled)
    {
      var pending := attrDict.Keys;
      handled := [];
      assert attrDict - pending == map[];
      while pending != {}
        invariant pending <= attrDict.Keys
        invariant assetId == old(assetId)
        invariant Snapshot() == Overlay(old(Snapshot()), attrDict - pending)
        invariant Enumerates(handled, attrDict - pending)
        invariant Snapshot() == ApplyItems(old(Snapshot()), handled)
        decreases pending
      {
        var attr :| attr in pending;
        var allowed := Lookup(attr);
        if allowed.Some? {
          SetAttr(allowed.value, attrDict[attr]);
        }
        OverlayStep(old(Snapshot()), attrDict, pending, attr);
        ApplyItemsSnoc(old(Snapshot()), handled, attr, attrDict[attr]);
        EnumeratesSnoc(handled, attrDict, pending, attr);
        handled := handled + [(attr, attrDict[attr])];
        pending := pending - {attr};
      }
      assert attrDict - {} == attrDict;
    }

    /** `to_mongo`: the key's path under `filename`, the three top-level
        attributes beside it, and exactly the four edit attributes under
        `edit_info`. */
    function ToMongo(): (doc: Value)
      reads this
      ensures doc.Dict?
      ensures doc.entries.Keys == {"filename", "basename", "internal_name", "locked", "edit_info"}
      ensures doc.entries["filename"] == Str(assetId.path)
      ensures forall n :: n in TopLevelAttrs ==> doc.entries[n.Key()] == Get(Snapshot(), n)
      ensures doc.entries["edit_info"].Dict?
      ensures doc.entries["edit_info"].entries.Keys == {"curr_version", "prev_version", "edited_by", "edited_on"}
      ensures forall n :: n in EditInfoAttrs ==> doc.entries["edit_info"].entries[n.Key()] == Get(Snapshot(), n)
    {
      Dict(map[
        "filename" := Str(assetId.path),
        "basename" := basename,
        "internal_name" := internalName,
        "locked" := locked,
        "edit_info" := Dict(map[
          "curr_version" := currVersion,
          "prev_version" := prevVersion,
          "edited_by" := editedBy,
          "edited_on" := editedOn])])
    }

    /** `from_mongo`: overwrites the attributes one by one from the document,
        returning the exception raised part-way, if any. The key is never
        touched. */
    method FromMongo(assetDoc: Value) returns (raised: Option<Error>)
      modifies this
      ensures assetId == old(assetId)
      ensures (Snapshot(), raised) == ReadDoc(old(Snapshot()), assetDoc)
    {
      if assetDoc.Null? {
        return None;
      }
      if !assetDoc.Dict? {
        return Some(AssertionError);
      }
      raised := ReadTopLevel(assetDoc);
      if raised.Some? { return; }
      var editInfo := Subscript(assetDoc, "edit_info");
      if editInfo.Err? { return Some(editInfo.error); }
      raised := ReadEditInfo(editInfo.value);
    }

    /** The three top-level assignments of `from_mongo`. */
    method ReadTopLevel(assetDoc: Value) returns (raised: Option<Error>)
      modifies this
      ensures assetId == old(assetId)
      ensures (Snapshot(), raised) == Fill(old(Snapshot()), assetDoc, TopLevelAttrs)
    {
      ghost var todo := TopLevelAttrs;
      var item := Subscript(assetDoc, "basename");
      FillStep(Snapshot(), assetDoc, todo);
      if item.Err? { return Some(item.error); }
      basename := item.value;
      todo := todo[1..];
      item := Subscript(assetDoc, "internal_name");
      FillStep(Snapshot(), assetDoc, todo);
      if item.Err? { return Some(item.error); }
      internalName := item.value;
      todo := todo[1..];
      item := Subscript(assetDoc, "locked");
      FillStep(Snapshot(), assetDoc, todo);
      if item.Err? { return Some(item.error); }
      locked := item.value;
      return None;
    }

    /** The four assignments of `from_mongo` that read `edit_info`. */
    method ReadEditInfo(editInfo: Value) returns (raised: Option<Error>)
      modifies this
      ensures assetId == old(assetId)
      ensures (Snapshot(), raised) == Fill(old(Snapshot()), editInfo, EditInfoAttrs)
    {
      ghost var todo := EditInfoAttrs;
      var item := Subscript(editInfo, "curr_version");
      FillStep(Snapshot(), editInfo, todo);
      if item.Err? { return Some(item.error); }
      currVersion := item.value;
      todo := todo[1..];
      item := Subscript(editInfo, "prev_version");
      FillStep(Snapshot(), editInfo, todo);
      if item.Err? { return Some(item.error); }
      prevVersion := item.value;
      todo := todo[1..];
      item := Subscript(editInfo, "edited_by");
      FillStep(Snapshot(), editInfo, todo);
      if item.Err? { return Some(item.error); }
      editedBy := item.value;
      todo := todo[1..];
      item := Subscript(editInfo, "edited_on");
      FillStep(Snapshot(), editInfo, todo);
      if item.Err? { return Some(item.error); }
      editedOn := item.value;
      return None;
    }
  }

  /** One iteration of `set_attrs`: handling key `attr` extends the overlay
      of the keys already handled by that key. */
  lemma OverlayStep(a: Attrs, d: map<string, Value>, pending: set<string>, attr: string)
    requires attr in pending && pending <= d.Keys
    ensures Overlay(a, d - (pending - {attr})) ==
      if Lookup(attr).Some? then Set(Overlay(a, d - pending), Lookup(attr).value, d[attr])
      else Overlay(a, d - pending)
  {
    var lhs := Overlay(a, d - (pending - {attr}));
    var rhs := if Lookup(attr).Some? then Set(Overlay(a, d - pending), Lookup(attr).value, d[attr])
               else Overlay(a, d - pending);
    AttrGroups();
    forall n ensures Get(lhs, n) == Get(rhs, n) {
    }
    AttrsExtensionality(lhs, rhs);
  }
}
