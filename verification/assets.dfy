/**
 * Asset pruning: `compress_images` and `compress_svgs` delete, from the
 * hash-keyed collections `assets.images` and `assets.svgs`, every record whose
 * content is over a limit given in kilobytes. A first loop judges every record
 * and lists the keys to delete; a second loop deletes them; the number of keys
 * listed is returned.
 */
module Assets {
  import opened Json

  datatype Kind = Image | Svg

  /** The collection under `assets` that holds records of a kind. */
  function Collection(kind: Kind): string {
    match kind
    case Image => "images"
    case Svg => "svgs"
  }

  /** The field of a record that holds its content. */
  function ContentField(kind: Kind): string {
    match kind
    case Image => "base64"
    case Svg => "svgCode"
  }

  /** The size that is compared with the limit: the number of characters of
      the base64 text (`len`), or the number of bytes of the SVG source in
      UTF-8 (`.encode('utf-8')` raises on anything but a string). */
  function ContentSize(kind: Kind, content: Value): (r: Outcome<nat>)
    ensures kind == Svg ==> (r.Ok? <==> content.Str?)
    ensures kind == Svg && r.Ok? ==> |content.s| <= r.value <= 4 * |content.s|
  {
    match kind
    case Image => Len(content)
    case Svg => if content.Str? then Ok(Utf8Length(content.s)) else Outcome.Raised
  }

  /** The source's test: an image decodes to about three bytes for every four
      base64 characters, `len * 0.75 / 1024 > max_size_kb`; an SVG is over when
      `bytes / 1024 > max_size_kb`. Exactly at the limit is kept. */
  predicate OverLimit(kind: Kind, size: nat, maxSizeKb: int) {
    match kind
    case Image => (size as real) * 0.75 / 1024.0 > maxSizeKb as real
    case Svg => (size as real) / 1024.0 > maxSizeKb as real
  }

  /** The same test in whole numbers. */
  lemma OverLimitInWholeNumbers(kind: Kind, size: nat, maxSizeKb: int)
    ensures kind == Image ==> (OverLimit(kind, size, maxSizeKb) <==> 3 * size > 4096 * maxSizeKb)
    ensures kind == Svg ==> (OverLimit(kind, size, maxSizeKb) <==> size > 1024 * maxSizeKb)
  {
  }

  /**
   * The verdict of the first loop on one record: `true` when it is to be
   * deleted. A dict is judged by its content field, if it has one. For a
   * string or a list, `'base64' in asset` is a substring or element test, and
   * `asset['base64']` then raises; for any other value the test itself raises.
   */
  function Oversized(kind: Kind, asset: Value, maxSizeKb: int): (r: Outcome<bool>)
    ensures asset.Obj? && !HasKey(asset.fields, ContentField(kind)) ==> r == Ok(false)
    ensures asset.Obj? && HasKey(asset.fields, ContentField(kind)) ==>
      var size := ContentSize(kind, Lookup(asset.fields, ContentField(kind)).value);
      r == if size.Ok? then Ok(OverLimit(kind, size.value, maxSizeKb)) else Outcome.Raised
    ensures !asset.Obj? ==> r != Ok(true)
  {
    match asset
    case Obj(fields) =>
      if !HasKey(fields, ContentField(kind)) then Ok(false)
      else
        var size :- ContentSize(kind, Lookup(fields, ContentField(kind)).value);
        Ok(OverLimit(kind, size, maxSizeKb))
    case _ =>
      match In(ContentField(kind), asset)
      case Ok(present) => if present then Outcome.Raised else Ok(false)
      case Raised => Outcome.Raised
  }

  /** The keys the first loop collects, in iteration order; `Raised` when
      judging some record raises. */
  function OversizedKeys(kind: Kind, entries: seq<Field>, maxSizeKb: int): (r: Outcome<seq<string>>)
    ensures r.Ok? ==> |r.value| <= |entries|
  {
    if entries == [] then Ok([])
    else
      var over :- Oversized(kind, entries[0].1, maxSizeKb);
      var rest :- OversizedKeys(kind, entries[1..], maxSizeKb);
      Ok(if over then [entries[0].0] + rest else rest)
  }

  /** Reference reading of a pruned collection: the records not judged
      oversized, in their original order and with their values untouched. */
  function Survivors(kind: Kind, entries: seq<Field>, maxSizeKb: int): (r: seq<Field>)
    ensures forall e :: e in r ==> e in entries && Oversized(kind, e.1, maxSizeKb) != Ok(true)
  {
    if entries == [] then []
    else
      (if Oversized(kind, entries[0].1, maxSizeKb) == Ok(true) then [] else [entries[0]])
      + Survivors(kind, entries[1..], maxSizeKb)
  }

  /** The pruned `assets` dict and the count that `compress_images` or
      `compress_svgs` returns. */
  datatype Pruning = Pruning(assets: Value, removed: nat)

  /**
   * `compress_images(assets, max_size_kb)` (kind Image) and
   * `compress_svgs(assets, max_size_kb)` (kind Svg). `assets.get` raises on a
   * non-dict; a missing or falsy collection gives 0 and no change; `.items()`
   * raises on a truthy non-dict collection.
   */
  function Prune(kind: Kind, assets: Value, maxSizeKb: int): (r: Outcome<Pruning>)
    ensures !assets.Obj? ==> r.Raised?
    ensures r.Ok? ==> r.value.assets.Obj? && Keys(r.value.assets.fields) == Keys(assets.fields)
    ensures r.Ok? ==> forall k :: k != Collection(kind) ==>
      Lookup(r.value.assets.fields, k) == Lookup(assets.fields, k)
    ensures assets.Obj? && !HasKey(assets.fields, Collection(kind)) ==> r == Ok(Pruning(assets, 0))
    ensures (assets.Obj? && HasKey(assets.fields, Collection(kind)) &&
             !Truthy(Lookup(assets.fields, Collection(kind)).value)) ==> r == Ok(Pruning(assets, 0))
  {
    if !assets.Obj? then Outcome.Raised
    else if !HasKey(assets.fields, Collection(kind)) then Ok(Pruning(assets, 0))
    else
      var coll := Lookup(assets.fields, Collection(kind)).value;
      if !Truthy(coll) then Ok(Pruning(assets, 0))
      else if !coll.Obj? then Outcome.Raised
      else
        var doomed :- OversizedKeys(kind, coll.fields, maxSizeKb);
        var kept := RemoveKeys(coll.fields, KeySet(doomed));
        Ok(Pruning(Obj(Replace(assets.fields, Collection(kind), Obj(kept))), |doomed|))
  }

  /** The first loop of `compress_images` / `compress_svgs`: judge every
      record and list the keys of the oversized ones. */
  method CollectOversized(kind: Kind, entries: seq<Field>, maxSizeKb: int) returns (r: Outcome<seq<string>>)
    ensures r == OversizedKeys(kind, entries, maxSizeKb)
  {
    var toRemove: seq<string> := [];
    for i := 0 to |entries|
      invariant OversizedKeys(kind, entries[..i], maxSizeKb) == Ok(toRemove)
    {
      var over := Oversized(kind, entries[i].1, maxSizeKb);
      if over.Raised? {
        OversizedKeysRaises(kind, entries, i, maxSizeKb);
        return Outcome.Raised;
      }
      OversizedKeysSnoc(kind, entries[..i], entries[i], maxSizeKb);
      assert entries[..i + 1] == entries[..i] + [entries[i]];
      if over.value {
        toRemove := toRemove + [entries[i].0];
      } else {
        assert toRemove + [] == toRemove;
      }
    }
    assert entries[..|entries|] == entries;
    r := Ok(toRemove);
  }

  /** The second loop: `del` every listed key. */
  method DeleteKeys(entries: seq<Field>, toRemove: seq<string>) returns (kept: seq<Field>)
    ensures kept == RemoveKeys(entries, KeySet(toRemove))
  {
    kept := entries;
    assert KeySet(toRemove[..0]) == {};
    RemoveAbsentKeys(entries, {});
    for j := 0 to |toRemove|
      invariant kept == RemoveKeys(entries, KeySet(toRemove[..j]))
    {
      ghost var done := KeySet(toRemove[..j]);
      KeySetExtend(toRemove, j);
      RemoveKeysUnion(entries, done, {toRemove[j]});
      kept := RemoveKeys(kept, {toRemove[j]});
    }
    assert toRemove[..|toRemove|] == toRemove;
  }

  lemma KeySetExtend(keys: seq<string>, j: nat)
    requires j < |keys|
    ensures KeySet(keys[..j + 1]) == KeySet(keys[..j]) + {keys[j]}
  {
    assert keys[..j + 1] == keys[..j] + [keys[j]];
  }

  /** `compress_images` / `compress_svgs` as a whole: the guards, the two
      loops, and the count of keys listed. */
  method PruneCollection(kind: Kind, assets: Value, maxSizeKb: int) returns (r: Outcome<Pruning>)
    ensures r == Prune(kind, assets, maxSizeKb)
  {
    if !assets.Obj? {
      return Outcome.Raised;
    }
    if !HasKey(assets.fields, Collection(kind)) {
      return Ok(Pruning(assets, 0));
    }
    var coll := Lookup(assets.fields, Collection(kind)).value;
    if !Truthy(coll) {
      return Ok(Pruning(assets, 0));
    }
    if !coll.Obj? {
      return Outcome.Raised;
    }
    var toRemove := CollectOversized(kind, coll.fields, maxSizeKb);
    if toRemove.Raised? {
      return Outcome.Raised;
    }
    var removedCount := |toRemove.value|;
    var kept := DeleteKeys(coll.fields, toRemove.value);
    r := Ok(Pruning(Obj(Replace(assets.fields, Collection(kind), Obj(kept))), removedCount));
  }

  /** `compress_images`: records of `assets.images` whose base64 text stands
      for more than `maxSizeKb` kilobytes are deleted. */
  method CompressImages(assets: Value, maxSizeKb: int) returns (r: Outcome<Pruning>)
    ensures r == Prune(Image, assets, maxSizeKb)
  {
    r := PruneCollection(Image, assets, maxSizeKb);
  }

  /** `compress_svgs`: records of `assets.svgs` whose SVG source is more than
      `maxSizeKb` kilobytes in UTF-8 are deleted. */
  method CompressSvgs(assets: Value, maxSizeKb: int) returns (r: Outcome<Pruning>)
    ensures r == Prune(Svg, assets, maxSizeKb)
  {
    r := PruneCollection(Svg, assets, maxSizeKb);
  }

  // Lemmas about the first loop.

  lemma {:induction false} OversizedKeysSnoc(kind: Kind, entries: seq<Field>, e: Field, maxSizeKb: int)
    requires OversizedKeys(kind, entries, maxSizeKb).Ok? && Oversized(kind, e.1, maxSizeKb).Ok?
    ensures OversizedKeys(kind, entries + [e], maxSizeKb) ==
      Ok(OversizedKeys(kind, entries, maxSizeKb).value
         + (if Oversized(kind, e.1, maxSizeKb).value then [e.0] else []))
  {
    var xs := entries + [e];
    if entries == [] {
      assert xs[0] == e && xs[1..] == [];
      assert OversizedKeys(kind, xs[1..], maxSizeKb) == Ok([]);
      var v := Oversized(kind, e.1, maxSizeKb).value;
      assert OversizedKeys(kind, xs, maxSizeKb) == Ok(if v then [e.0] + [] else []);
      var extra := if v then [e.0] else [];
      assert [e.0] + [] == [e.0];
      assert OversizedKeys(kind, xs, maxSizeKb) == Ok(extra);
      assert OversizedKeys(kind, entries, maxSizeKb).value + extra == extra;
      assert OversizedKeys(kind, entries + [e], maxSizeKb) == Ok(extra);
    } else {
      assert xs[0] == entries[0];
      assert xs[1..] == entries[1..] + [e];
      assert Oversized(kind, entries[0].1, maxSizeKb).Ok?;
      assert OversizedKeys(kind, entries[1..], maxSizeKb).Ok?;
      OversizedKeysSnoc(kind, entries[1..], e, maxSizeKb);
      var tail := OversizedKeys(kind, entries[1..], maxSizeKb).value;
      var extra := if Oversized(kind, e.1, maxSizeKb).value then [e.0] else [];
      if Oversized(kind, entries[0].1, maxSizeKb).value {
        assert [entries[0].0] + (tail + extra) == ([entries[0].0] + tail) + extra;
      }
    }
  }

  lemma {:induction false} OversizedKeysRaises(kind: Kind, entries: seq<Field>, i: nat, maxSizeKb: int)
    requires i < |entries| && Oversized(kind, entries[i].1, maxSizeKb).Raised?
    ensures OversizedKeys(kind, entries, maxSizeKb).Raised?
  {
    if i > 0 {
      OversizedKeysRaises(kind, entries[1..], i - 1, maxSizeKb);
    }
  }

  /** When the first loop finishes, every record was judged without raising. */
  lemma {:induction false} OversizedKeysAllJudged(kind: Kind, entries: seq<Field>, maxSizeKb: int)
    requires OversizedKeys(kind, entries, maxSizeKb).Ok?
    ensures forall i :: 0 <= i < |entries| ==> Oversized(kind, entries[i].1, maxSizeKb).Ok?
  {
    if entries != [] {
      OversizedKeysAllJudged(kind, entries[1..], maxSizeKb);
      forall i | 0 < i < |entries|
        ensures Oversized(kind, entries[i].1, maxSizeKb).Ok?
      {
        assert entries[1..][i - 1] == entries[i];
      }
    }
  }

  /** The key of every oversized record is listed. */
  lemma {:induction false} OversizedKeysComplete(kind: Kind, entries: seq<Field>, maxSizeKb: int)
    requires OversizedKeys(kind, entries, maxSizeKb).Ok?
    ensures forall i :: 0 <= i < |entries| && Oversized(kind, entries[i].1, maxSizeKb) == Ok(true) ==>
      entries[i].0 in OversizedKeys(kind, entries, maxSizeKb).value
  {
    if entries != [] {
      OversizedKeysComplete(kind, entries[1..], maxSizeKb);
      forall i | 0 < i < |entries| && Oversized(kind, entries[i].1, maxSizeKb) == Ok(true)
        ensures entries[i].0 in OversizedKeys(kind, entries, maxSizeKb).value
      {
        assert entries[1..][i - 1] == entries[i];
      }
    }
  }

  /** Only keys of oversized records are listed. */
  lemma {:induction false} OversizedKeysSound(kind: Kind, entries: seq<Field>, maxSizeKb: int, k: string)
    requires OversizedKeys(kind, entries, maxSizeKb).Ok?
    requires k in OversizedKeys(kind, entries, maxSizeKb).value
    ensures exists i :: 0 <= i < |entries| && entries[i].0 == k && Oversized(kind, entries[i].1, maxSizeKb) == Ok(true)
  {
    if k !in OversizedKeys(kind, entries[1..], maxSizeKb).value {
      assert entries[0].0 == k && Oversized(kind, entries[0].1, maxSizeKb) == Ok(true);
    } else {
      OversizedKeysSound(kind, entries[1..], maxSizeKb, k);
      var i :| 0 <= i < |entries[1..]| && entries[1..][i].0 == k && Oversized(kind, entries[1..][i].1, maxSizeKb) == Ok(true);
      assert entries[i + 1] == entries[1..][i];
    }
  }

  /** As many keys are listed as records fail to survive. */
  lemma {:induction false} OversizedKeysCount(kind: Kind, entries: seq<Field>, maxSizeKb: int)
    requires OversizedKeys(kind, entries, maxSizeKb).Ok?
    ensures |OversizedKeys(kind, entries, maxSizeKb).value| + |Survivors(kind, entries, maxSizeKb)| == |entries|
  {
    if entries != [] {
      OversizedKeysCount(kind, entries[1..], maxSizeKb);
    }
  }

  /** Deleting a set of keys that holds exactly the keys of the oversized
      records leaves the survivors. */
  lemma {:induction false} RemovingOversizedKeys(kind: Kind, entries: seq<Field>, maxSizeKb: int, ks: set<string>)
    requires forall i :: 0 <= i < |entries| ==>
      (entries[i].0 in ks <==> Oversized(kind, entries[i].1, maxSizeKb) == Ok(true))
    ensures RemoveKeys(entries, ks) == Survivors(kind, entries, maxSizeKb)
  {
    if entries != [] {
      forall i | 0 <= i < |entries[1..]|
        ensures entries[1..][i].0 in ks <==> Oversized(kind, entries[1..][i].1, maxSizeKb) == Ok(true)
      {
        assert entries[1..][i] == entries[i + 1];
      }
      RemovingOversizedKeys(kind, entries[1..], maxSizeKb, ks);
    }
  }

  /** With unique keys (as in every dict), deleting the collected keys leaves
      exactly the survivors. */
  lemma RemovingCollectedKeys(kind: Kind, entries: seq<Field>, maxSizeKb: int)
    requires UniqueKeys(entries) && OversizedKeys(kind, entries, maxSizeKb).Ok?
    ensures RemoveKeys(entries, KeySet(OversizedKeys(kind, entries, maxSizeKb).value))
      == Survivors(kind, entries, maxSizeKb)
  {
    var doomed := OversizedKeys(kind, entries, maxSizeKb).value;
    OversizedKeysComplete(kind, entries, maxSizeKb);
    forall i | 0 <= i < |entries|
      ensures entries[i].0 in KeySet(doomed) <==> Oversized(kind, entries[i].1, maxSizeKb) == Ok(true)
    {
      if entries[i].0 in doomed {
        OversizedKeysSound(kind, entries, maxSizeKb, entries[i].0);
        var j :| 0 <= j < |entries| && entries[j].0 == entries[i].0 &&
          Oversized(kind, entries[j].1, maxSizeKb) == Ok(true);
        assert i == j;
      }
    }
    RemovingOversizedKeys(kind, entries, maxSizeKb, KeySet(doomed));
  }

  /**
   * What pruning does to a collection that is a dict with unique keys: the
   * records kept are exactly those not judged oversized, in order and
   * unchanged, and the count returned is the number of records deleted.
   */
  lemma PruneRemovesExactlyTheOversized(kind: Kind, assets: Value, maxSizeKb: int)
    requires assets.Obj? && HasKey(assets.fields, Collection(kind))
    requires Lookup(assets.fields, Collection(kind)).value.Obj?
    requires UniqueKeys(Lookup(assets.fields, Collection(kind)).value.fields)
    requires Prune(kind, assets, maxSizeKb).Ok?
    ensures var entries := Lookup(assets.fields, Collection(kind)).value.fields;
      var p := Prune(kind, assets, maxSizeKb).value;
      && Lookup(p.assets.fields, Collection(kind)) == Some(Obj(Survivors(kind, entries, maxSizeKb)))
      && p.removed == |entries| - |Survivors(kind, entries, maxSizeKb)|
  {
    var key := Collection(kind);
    var entries := Lookup(assets.fields, key).value.fields;
    if entries != [] {
      var doomed := OversizedKeys(kind, entries, maxSizeKb).value;
      var kept := RemoveKeys(entries, KeySet(doomed));
      var p := Prune(kind, assets, maxSizeKb).value;
      assert p == Pruning(Obj(Replace(assets.fields, key, Obj(kept))), |doomed|);
      assert Lookup(p.assets.fields, key) == Some(Obj(kept));
      RemovingCollectedKeys(kind, entries, maxSizeKb);
      OversizedKeysCount(kind, entries, maxSizeKb);
    }
  }

  /** A record survives pruning iff it is not oversized; a record without the
      content field always survives. */
  lemma {:induction false} SurvivorsAreTheSmallOnes(kind: Kind, entries: seq<Field>, maxSizeKb: int, i: nat)
    requires i < |entries|
    ensures entries[i] in Survivors(kind, entries, maxSizeKb) <==> Oversized(kind, entries[i].1, maxSizeKb) != Ok(true)
  {
    if i > 0 {
      SurvivorsAreTheSmallOnes(kind, entries[1..], maxSizeKb, i - 1);
      assert entries[1..][i - 1] == entries[i];
    }
  }

  /** Deleting every key of an oversized record leaves nothing oversized. */
  lemma {:induction false} RemovingCoveringKeys(kind: Kind, entries: seq<Field>, maxSizeKb: int, ks: set<string>)
    requires forall i :: 0 <= i < |entries| ==> Oversized(kind, entries[i].1, maxSizeKb).Ok?
    requires forall i :: 0 <= i < |entries| && Oversized(kind, entries[i].1, maxSizeKb) == Ok(true) ==>
      entries[i].0 in ks
    ensures OversizedKeys(kind, RemoveKeys(entries, ks), maxSizeKb) == Ok([])
  {
    if entries != [] {
      CoveringTail(kind, entries, maxSizeKb, ks);
      RemovingCoveringKeys(kind, entries[1..], maxSizeKb, ks);
      var rest := RemoveKeys(entries[1..], ks);
      if entries[0].0 !in ks {
        assert Oversized(kind, entries[0].1, maxSizeKb) == Ok(false);
        assert RemoveKeys(entries, ks) == [entries[0]] + rest;
        SmallHead(kind, entries[0], rest, maxSizeKb);
      } else {
        assert RemoveKeys(entries, ks) == rest;
      }
    }
  }

  lemma CoveringTail(kind: Kind, entries: seq<Field>, maxSizeKb: int, ks: set<string>)
    requires entries != []
    requires forall i :: 0 <= i < |entries| ==> Oversized(kind, entries[i].1, maxSizeKb).Ok?
    requires forall i :: 0 <= i < |entries| && Oversized(kind, entries[i].1, maxSizeKb) == Ok(true) ==>
      entries[i].0 in ks
    ensures forall i :: 0 <= i < |entries[1..]| ==> Oversized(kind, entries[1..][i].1, maxSizeKb).Ok?
    ensures forall i :: 0 <= i < |entries[1..]| && Oversized(kind, entries[1..][i].1, maxSizeKb) == Ok(true) ==>
      entries[1..][i].0 in ks
  {
    forall i | 0 <= i < |entries[1..]|
      ensures Oversized(kind, entries[1..][i].1, maxSizeKb).Ok?
      ensures Oversized(kind, entries[1..][i].1, maxSizeKb) == Ok(true) ==> entries[1..][i].0 in ks
    {
      assert entries[1..][i] == entries[i + 1];
    }
  }

  lemma SmallHead(kind: Kind, e: Field, rest: seq<Field>, maxSizeKb: int)
    requires Oversized(kind, e.1, maxSizeKb) == Ok(false)
    requires OversizedKeys(kind, rest, maxSizeKb) == Ok([])
    ensures OversizedKeys(kind, [e] + rest, maxSizeKb) == Ok([])
  {
    assert ([e] + rest)[1..] == rest;
  }

  /** No record left by deleting the collected keys is oversized. */
  lemma KeptAreSmall(kind: Kind, entries: seq<Field>, maxSizeKb: int)
    requires OversizedKeys(kind, entries, maxSizeKb).Ok?
    ensures OversizedKeys(kind, RemoveKeys(entries, KeySet(OversizedKeys(kind, entries, maxSizeKb).value)), maxSizeKb) == Ok([])
  {
    var doomed := OversizedKeys(kind, entries, maxSizeKb).value;
    OversizedKeysAllJudged(kind, entries, maxSizeKb);
    OversizedKeysComplete(kind, entries, maxSizeKb);
    RemovingCoveringKeys(kind, entries, maxSizeKb, KeySet(doomed));
  }

  /** What pruning leaves in the collection of a kind: a dict collection
      with unique keys becomes its survivors; any other value (absent, or a
      falsy non-dict) stays as it was. */
  predicate CollectionPruned(kind: Kind, before: Value, after: Value, maxSizeKb: int)
    requires before.Obj? && after.Obj?
  {
    match Lookup(before.fields, Collection(kind))
    case Some(Obj(entries)) =>
      UniqueKeys(entries) ==> Lookup(after.fields, Collection(kind)) == Some(Obj(Survivors(kind, entries, maxSizeKb)))
    case other => Lookup(after.fields, Collection(kind)) == other
  }

  /** A successful prune leaves exactly the survivors in its collection. */
  lemma PruneEffect(kind: Kind, assets: Value, maxSizeKb: int)
    requires Prune(kind, assets, maxSizeKb).Ok?
    ensures CollectionPruned(kind, assets, Prune(kind, assets, maxSizeKb).value.assets, maxSizeKb)
  {
    var key := Collection(kind);
    match Lookup(assets.fields, key)
    case Some(Obj(entries)) =>
      if UniqueKeys(entries) {
        PruneRemovesExactlyTheOversized(kind, assets, maxSizeKb);
      }
    case _ =>
  }

  /** A collection that pruning leaves as it is: absent, empty, or a dict
      holding nothing over the limit. */
  predicate CollectionSettled(kind: Kind, collection: Option<Value>, maxSizeKb: int) {
    match collection
    case None => true
    case Some(c) => !Truthy(c) || (c.Obj? && OversizedKeys(kind, c.fields, maxSizeKb) == Ok([]))
  }

  /** After pruning, the collection holds nothing over the limit. */
  lemma PruneLeavesSettled(kind: Kind, assets: Value, maxSizeKb: int)
    requires Prune(kind, assets, maxSizeKb).Ok?
    ensures var once := Prune(kind, assets, maxSizeKb).value.assets;
      CollectionSettled(kind, Lookup(once.fields, Collection(kind)), maxSizeKb)
  {
    var once := Prune(kind, assets, maxSizeKb).value.assets;
    var key := Collection(kind);
    if HasKey(assets.fields, key) && Truthy(Lookup(assets.fields, key).value) {
      var entries := Lookup(assets.fields, key).value.fields;
      var doomed := OversizedKeys(kind, entries, maxSizeKb).value;
      var kept := RemoveKeys(entries, KeySet(doomed));
      assert Lookup(once.fields, key) == Some(Obj(kept));
      KeptAreSmall(kind, entries, maxSizeKb);
    }
  }

  /** Pruning a settled collection removes nothing and changes nothing. */
  lemma PruneSettled(kind: Kind, assets: Value, maxSizeKb: int)
    requires assets.Obj? && CollectionSettled(kind, Lookup(assets.fields, Collection(kind)), maxSizeKb)
    ensures Prune(kind, assets, maxSizeKb) == Ok(Pruning(assets, 0))
  {
    var key := Collection(kind);
    if HasKey(assets.fields, key) && Truthy(Lookup(assets.fields, key).value) {
      var kept := Lookup(assets.fields, key).value.fields;
      assert KeySet([]) == {};
      RemoveAbsentKeys(kept, {});
      ReplaceWithSame(assets.fields, key, Obj(kept));
    }
  }

  /** Pruning twice with the same limit deletes nothing the second time. */
  lemma PruneIdempotent(kind: Kind, assets: Value, maxSizeKb: int)
    requires Prune(kind, assets, maxSizeKb).Ok?
    ensures var once := Prune(kind, assets, maxSizeKb).value.assets;
      Prune(kind, once, maxSizeKb) == Ok(Pruning(once, 0))
  {
    PruneLeavesSettled(kind, assets, maxSizeKb);
    PruneSettled(kind, Prune(kind, assets, maxSizeKb).value.assets, maxSizeKb);
  }
}
