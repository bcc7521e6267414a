/**
 * The two compression tiers, `compress_standard` and `compress_aggressive`:
 * each applies the asset, token and tree stages to the keys of the document
 * that hold them, with its own limits; the aggressive tier also deletes or
 * blanks some top-level keys.
 */
module Tiers {
  import opened Json
  import Assets
  import Tokens
  import Tree

  /** Kilobyte limits for images and SVGs. */
  datatype Limits = Limits(imageKb: nat, svgKb: nat)

  const StandardLimits := Limits(75, 30)
  const AggressiveLimits := Limits(25, 10)
  const StandardDepth: nat := 10
  const AggressiveDepth: nat := 6

  /** What `components` becomes in the aggressive tier. */
  const EmptyComponents := Obj([("definitions", Obj([]))])

  /** Top-level keys the aggressive tier deletes at its end. */
  const OptionalKeys: seq<string> := ["cssVariables", "variants", "extractionSummary"]

  /** The top-level keys each tier reads, in the order it reads them. */
  const StandardKeys: seq<string> := ["assets", "designTokens", "tree"]
  const AggressiveKeys: seq<string> :=
    ["assets", "designTokens", "screenshot", "components", "tree"] + OptionalKeys

  /** `compress_images(assets, ...)` then `compress_svgs(assets, ...)` on the
      same dict. */
  function PruneAssets(assets: Value, limits: Limits): (r: Outcome<Value>)
    ensures r.Ok? ==> assets.Obj? && r.value.Obj? && Keys(r.value.fields) == Keys(assets.fields)
  {
    var images :- Assets.Prune(Assets.Image, assets, limits.imageKb);
    var svgs :- Assets.Prune(Assets.Svg, images.assets, limits.svgKb);
    Ok(svgs.assets)
  }

  /** After the asset stage, `images` holds the images within the image
      limit and `svgs` the SVGs within the SVG limit (for collections with
      unique keys, as `json.load` builds them); every other key of `assets`
      keeps its value. */
  lemma PruneAssetsEffect(assets: Value, limits: Limits)
    requires PruneAssets(assets, limits).Ok?
    ensures var out := PruneAssets(assets, limits).value;
      && Assets.CollectionPruned(Assets.Image, assets, out, limits.imageKb)
      && Assets.CollectionPruned(Assets.Svg, assets, out, limits.svgKb)
      && forall k :: k != "images" && k != "svgs" ==> Lookup(out.fields, k) == Lookup(assets.fields, k)
  {
    var images := Assets.Prune(Assets.Image, assets, limits.imageKb).value.assets;
    var out := Assets.Prune(Assets.Svg, images, limits.svgKb).value.assets;
    Assets.PruneEffect(Assets.Image, assets, limits.imageKb);
    Assets.PruneEffect(Assets.Svg, images, limits.svgKb);
    assert Lookup(images.fields, "svgs") == Lookup(assets.fields, "svgs");
    assert Lookup(out.fields, "images") == Lookup(images.fields, "images");
  }

  /** The colours of the document's tokens, if any, can be ordered. */
  predicate ComparableIn(fields: seq<Field>) {
    match Lookup(fields, "designTokens")
    case Some(tokens) => Tokens.ColorsComparable(tokens)
    case None => true
  }

  predicate TokensComparable(data: Value) {
    data.Obj? ==> ComparableIn(data.fields)
  }

  /** `if 'assets' in data: <prune data['assets']>`. */
  function PruneIn(fields: seq<Field>, limits: Limits): (r: Outcome<seq<Field>>)
    ensures r.Ok? <==> (Lookup(fields, "assets").Some? ==> PruneAssets(Lookup(fields, "assets").value, limits).Ok?)
    ensures r.Ok? && Lookup(fields, "assets").Some? ==>
      Lookup(r.value, "assets") == Some(PruneAssets(Lookup(fields, "assets").value, limits).value)
    ensures r.Ok? ==> Keys(r.value) == Keys(fields)
    ensures r.Ok? ==> forall k :: k != "assets" ==> Lookup(r.value, k) == Lookup(fields, k)
  {
    match Lookup(fields, "assets")
    case None => Ok(fields)
    case Some(assets) =>
      var pruned :- PruneAssets(assets, limits);
      Ok(Replace(fields, "assets", pruned))
  }

  /** `if 'designTokens' in data: compress_design_tokens(data['designTokens'], ...)`. */
  function ReduceIn(fields: seq<Field>, aggressive: bool): (r: Outcome<seq<Field>>)
    requires ComparableIn(fields)
    ensures r.Ok? <==>
      (Lookup(fields, "designTokens").Some? ==> Tokens.ReduceTokens(Lookup(fields, "designTokens").value, aggressive).Ok?)
    ensures r.Ok? && Lookup(fields, "designTokens").Some? ==>
      Lookup(r.value, "designTokens") == Some(Tokens.ReduceTokens(Lookup(fields, "designTokens").value, aggressive).value)
    ensures r.Ok? ==> Keys(r.value) == Keys(fields)
    ensures r.Ok? ==> forall k :: k != "designTokens" ==> Lookup(r.value, k) == Lookup(fields, k)
  {
    match Lookup(fields, "designTokens")
    case None => Ok(fields)
    case Some(tokens) =>
      var reduced :- Tokens.ReduceTokens(tokens, aggressive);
      Ok(Replace(fields, "designTokens", reduced))
  }

  /** `if 'tree' in data: simplify_tree(data['tree'], max_depth)`. */
  function SimplifyIn(fields: seq<Field>, maxDepth: nat): (r: Outcome<seq<Field>>)
    ensures r.Ok? <==> (Lookup(fields, "tree").Some? ==> Tree.SimplifyRoot(Lookup(fields, "tree").value, maxDepth).Ok?)
    ensures r.Ok? && Lookup(fields, "tree").Some? ==>
      Lookup(r.value, "tree") == Some(Tree.SimplifyRoot(Lookup(fields, "tree").value, maxDepth).value)
    ensures r.Ok? ==> Keys(r.value) == Keys(fields)
    ensures r.Ok? ==> forall k :: k != "tree" ==> Lookup(r.value, k) == Lookup(fields, k)
  {
    match Lookup(fields, "tree")
    case None => Ok(fields)
    case Some(tree) =>
      var simplified :- Tree.SimplifyRoot(tree, maxDepth);
      Ok(Replace(fields, "tree", simplified))
  }

  /** `compress_standard(data)`: the returned document, or `Raised`. */
  function Standard(data: Value): (r: Outcome<Value>)
    requires TokensComparable(data)
    ensures !data.Obj? ==> r == NonDictAccess(data, StandardKeys)
    ensures r.Ok? && data.Obj? ==> r.value.Obj? && Keys(r.value.fields) == Keys(data.fields)
  {
    if !data.Obj? then NonDictAccess(data, StandardKeys)
    else
      var pruned :- PruneIn(data.fields, StandardLimits);
      var reduced :- ReduceIn(pruned, false);
      var simplified :- SimplifyIn(reduced, StandardDepth);
      Ok(Obj(simplified))
  }

  /** `data['components'] = {'definitions': {}}` when `components` is present. */
  function BlankComponents(fields: seq<Field>): (r: seq<Field>)
    ensures Keys(r) == Keys(fields)
    ensures HasKey(fields, "components") ==> Lookup(r, "components") == Some(EmptyComponents)
    ensures forall k :: k != "components" ==> Lookup(r, k) == Lookup(fields, k)
  {
    if HasKey(fields, "components") then Replace(fields, "components", EmptyComponents) else fields
  }

  /** `compress_aggressive(data)`: the returned document, or `Raised`. */
  function Aggressive(data: Value): (r: Outcome<Value>)
    requires TokensComparable(data)
    ensures !data.Obj? ==> r == NonDictAccess(data, AggressiveKeys)
    ensures r.Ok? && data.Obj? ==> r.value.Obj?
  {
    if !data.Obj? then NonDictAccess(data, AggressiveKeys)
    else
      var pruned :- PruneIn(data.fields, AggressiveLimits);
      var reduced :- ReduceIn(pruned, true);
      var noScreenshot := RemoveKeys(reduced, {"screenshot"});
      var blanked := BlankComponents(noScreenshot);
      var simplified :- SimplifyIn(blanked, AggressiveDepth);
      Ok(Obj(RemoveKeys(simplified, KeySet(OptionalKeys))))
  }

  // What each tier does to the document.

  /** None of the three stages raises on the keys present. */
  predicate StagesSucceed(fields: seq<Field>, limits: Limits, aggressive: bool, maxDepth: nat)
    requires ComparableIn(fields)
  {
    && (match Lookup(fields, "assets")
        case Some(assets) => PruneAssets(assets, limits).Ok?
        case None => true)
    && (match Lookup(fields, "designTokens")
        case Some(tokens) => Tokens.ReduceTokens(tokens, aggressive).Ok?
        case None => true)
    && (match Lookup(fields, "tree")
        case Some(tree) => Tree.SimplifyRoot(tree, maxDepth).Ok?
        case None => true)
  }

  /** `after` holds what the three stages made of the keys of `before`;
      absent keys stay absent. */
  predicate StagesApplied(before: seq<Field>, after: seq<Field>, limits: Limits, aggressive: bool, maxDepth: nat)
    requires ComparableIn(before) && StagesSucceed(before, limits, aggressive, maxDepth)
  {
    && Lookup(after, "assets") ==
         (match Lookup(before, "assets")
          case Some(assets) => Some(PruneAssets(assets, limits).value)
          case None => None)
    && Lookup(after, "designTokens") ==
         (match Lookup(before, "designTokens")
          case Some(tokens) => Some(Tokens.ReduceTokens(tokens, aggressive).value)
          case None => None)
    && Lookup(after, "tree") ==
         (match Lookup(before, "tree")
          case Some(tree) => Some(Tree.SimplifyRoot(tree, maxDepth).value)
          case None => None)
  }

  /** The three stages one after the other: assets, tokens, tree. */
  function Chain(fields: seq<Field>, limits: Limits, aggressive: bool, maxDepth: nat): Outcome<seq<Field>>
    requires ComparableIn(fields)
  {
    var pruned :- PruneIn(fields, limits);
    var reduced :- ReduceIn(pruned, aggressive);
    SimplifyIn(reduced, maxDepth)
  }

  lemma StandardIsChain(data: Value)
    requires data.Obj? && TokensComparable(data)
    ensures Standard(data) == (var c := Chain(data.fields, StandardLimits, false, StandardDepth);
                               if c.Ok? then Ok(Obj(c.value)) else Raised)
  {
  }

  lemma ChainRaises(fields: seq<Field>, limits: Limits, aggressive: bool, maxDepth: nat)
    requires ComparableIn(fields)
    ensures Chain(fields, limits, aggressive, maxDepth).Ok? <==> StagesSucceed(fields, limits, aggressive, maxDepth)
  {
    var pruned := PruneIn(fields, limits);
    if pruned.Ok? {
      assert Lookup(pruned.value, "designTokens") == Lookup(fields, "designTokens");
      assert Lookup(pruned.value, "tree") == Lookup(fields, "tree");
      var reduced := ReduceIn(pruned.value, aggressive);
      if reduced.Ok? {
        assert Lookup(reduced.value, "tree") == Lookup(fields, "tree");
      }
    }
  }

  lemma ChainApplies(fields: seq<Field>, limits: Limits, aggressive: bool, maxDepth: nat)
    requires ComparableIn(fields) && Chain(fields, limits, aggressive, maxDepth).Ok?
    ensures StagesSucceed(fields, limits, aggressive, maxDepth)
    ensures var after := Chain(fields, limits, aggressive, maxDepth).value;
      && StagesApplied(fields, after, limits, aggressive, maxDepth)
      && Keys(after) == Keys(fields)
      && forall k :: k != "assets" && k != "designTokens" && k != "tree" ==> Lookup(after, k) == Lookup(fields, k)
  {
    ChainRaises(fields, limits, aggressive, maxDepth);
    var pruned := PruneIn(fields, limits).value;
    var reduced := ReduceIn(pruned, aggressive).value;
    var simplified := SimplifyIn(reduced, maxDepth).value;
    assert Lookup(pruned, "designTokens") == Lookup(fields, "designTokens");
    assert Lookup(reduced, "tree") == Lookup(fields, "tree");
    assert Lookup(simplified, "assets") == Lookup(pruned, "assets");
    assert Lookup(simplified, "designTokens") == Lookup(reduced, "designTokens");
  }

  /** The key deletions and the blanking of `components` that the aggressive
      tier does around its tree stage. */
  function Finish(fields: seq<Field>): seq<Field> {
    RemoveKeys(BlankComponents(RemoveKeys(fields, {"screenshot"})), KeySet(OptionalKeys))
  }

  /** The tree stage touches only `tree`, so it commutes with deleting
      `screenshot` and blanking `components`. */
  lemma SimplifyInCommutes(fields: seq<Field>, maxDepth: nat)
    ensures var between := BlankComponents(RemoveKeys(fields, {"screenshot"}));
      SimplifyIn(between, maxDepth) ==
        (var s := SimplifyIn(fields, maxDepth); if s.Ok? then Ok(BlankComponents(RemoveKeys(s.value, {"screenshot"}))) else Raised)
  {
    var stripped := RemoveKeys(fields, {"screenshot"});
    var between := BlankComponents(stripped);
    assert Lookup(between, "tree") == Lookup(fields, "tree");
    if Lookup(fields, "tree").Some? {
      var s := Tree.SimplifyRoot(Lookup(fields, "tree").value, maxDepth);
      if s.Ok? {
        RemoveKeysOfReplace(fields, "tree", s.value, {"screenshot"});
        assert HasKey(Replace(stripped, "tree", s.value), "components") == HasKey(stripped, "components") by {
          assert Keys(Replace(stripped, "tree", s.value)) == Keys(stripped);
        }
        if HasKey(stripped, "components") {
          ReplaceCommutes(stripped, "tree", s.value, "components", EmptyComponents);
        }
      }
    }
  }

  lemma AggressiveIsChain(data: Value)
    requires data.Obj? && TokensComparable(data)
    ensures Aggressive(data) == (var c := Chain(data.fields, AggressiveLimits, true, AggressiveDepth);
                                 if c.Ok? then Ok(Obj(Finish(c.value))) else Raised)
  {
    var pruned := PruneIn(data.fields, AggressiveLimits);
    if pruned.Ok? {
      var reduced := ReduceIn(pruned.value, true);
      if reduced.Ok? {
        SimplifyInCommutes(reduced.value, AggressiveDepth);
      }
    }
  }

  /** The standard tier raises exactly when one of its stages raises on its
      key; otherwise it applies the standard limits, caps and depth to
      `assets`, `designTokens` and `tree`, keeps every key in its place and
      leaves every other value as it was. */
  lemma StandardScope(data: Value)
    requires data.Obj? && TokensComparable(data)
    ensures Standard(data).Ok? <==> StagesSucceed(data.fields, StandardLimits, false, StandardDepth)
    ensures Standard(data).Ok? ==>
      var after := Standard(data).value.fields;
      && StagesApplied(data.fields, after, StandardLimits, false, StandardDepth)
      && Keys(after) == Keys(data.fields)
      && forall k :: k != "assets" && k != "designTokens" && k != "tree" ==> Lookup(after, k) == Lookup(data.fields, k)
  {
    StandardIsChain(data);
    ChainRaises(data.fields, StandardLimits, false, StandardDepth);
    if Standard(data).Ok? {
      ChainApplies(data.fields, StandardLimits, false, StandardDepth);
    }
  }

  /** The keys the aggressive tier deletes. */
  function Dropped(): set<string> {
    {"screenshot"} + KeySet(OptionalKeys)
  }

  lemma ComponentsNotDropped()
    ensures "components" !in Dropped()
  {
    assert "components" !in OptionalKeys;
  }

  /** Finishing deletes exactly the dropped keys and keeps the order of the
      rest. */
  lemma FinishKeys(fields: seq<Field>)
    ensures Keys(Finish(fields)) == RemoveAll(Keys(fields), Dropped())
  {
    var stripped := RemoveKeys(fields, {"screenshot"});
    var blanked := BlankComponents(stripped);
    KeysOfRemoveKeys(fields, {"screenshot"});
    KeysOfRemoveKeys(blanked, KeySet(OptionalKeys));
    RemoveAllUnion(Keys(fields), {"screenshot"}, KeySet(OptionalKeys));
  }

  /** Finishing blanks `components` and keeps every other value it does not
      delete. */
  lemma FinishValues(fields: seq<Field>)
    ensures forall k :: k in Dropped() ==> Lookup(Finish(fields), k) == None
    ensures Lookup(Finish(fields), "components") ==
      if HasKey(fields, "components") then Some(EmptyComponents) else None
    ensures forall k :: k !in Dropped() && k != "components" ==> Lookup(Finish(fields), k) == Lookup(fields, k)
  {
    var stripped := RemoveKeys(fields, {"screenshot"});
    var blanked := BlankComponents(stripped);
    ComponentsNotDropped();
    assert HasKey(stripped, "components") == HasKey(fields, "components");
    forall k | k in Dropped()
      ensures Lookup(Finish(fields), k) == None
    {
      if k !in KeySet(OptionalKeys) {
        assert k == "screenshot";
        assert Lookup(blanked, k) == None;
      }
    }
  }

  lemma FinishEffect(fields: seq<Field>)
    ensures Keys(Finish(fields)) == RemoveAll(Keys(fields), Dropped())
    ensures forall k :: k in Dropped() ==> Lookup(Finish(fields), k) == None
    ensures Lookup(Finish(fields), "components") ==
      if HasKey(fields, "components") then Some(EmptyComponents) else None
    ensures forall k :: k !in Dropped() && k != "components" ==> Lookup(Finish(fields), k) == Lookup(fields, k)
  {
    FinishKeys(fields);
    FinishValues(fields);
  }

  lemma StageKeysNotDropped()
    ensures "assets" !in Dropped() && "designTokens" !in Dropped() && "tree" !in Dropped()
  {
    assert "assets" !in OptionalKeys && "designTokens" !in OptionalKeys && "tree" !in OptionalKeys;
  }

  lemma StagesAppliedAcross(before: seq<Field>, a: seq<Field>, b: seq<Field>, limits: Limits, aggressive: bool, maxDepth: nat)
    requires ComparableIn(before) && StagesSucceed(before, limits, aggressive, maxDepth)
    requires StagesApplied(before, a, limits, aggressive, maxDepth)
    requires Lookup(b, "assets") == Lookup(a, "assets")
    requires Lookup(b, "designTokens") == Lookup(a, "designTokens")
    requires Lookup(b, "tree") == Lookup(a, "tree")
    ensures StagesApplied(before, b, limits, aggressive, maxDepth)
  {
  }

  /** Finishing keeps the values of the keys the stages work on. */
  lemma FinishKeepsStageKeys(chained: seq<Field>)
    ensures Lookup(Finish(chained), "assets") == Lookup(chained, "assets")
    ensures Lookup(Finish(chained), "designTokens") == Lookup(chained, "designTokens")
    ensures Lookup(Finish(chained), "tree") == Lookup(chained, "tree")
  {
    StageKeysNotDropped();
    var stripped := RemoveKeys(chained, {"screenshot"});
    var blanked := BlankComponents(stripped);
    assert Lookup(blanked, "assets") == Lookup(chained, "assets");
    assert Lookup(blanked, "designTokens") == Lookup(chained, "designTokens");
    assert Lookup(blanked, "tree") == Lookup(chained, "tree");
  }

  /** The aggressive tier raises exactly when one of its stages raises on
      its key. Otherwise it applies the aggressive limits, caps and depth to
      `assets`, `designTokens` and `tree`; it deletes `screenshot`,
      `cssVariables`, `variants` and `extractionSummary`; it sets
      `components`, when present, to exactly `{'definitions': {}}`; it adds
      no key, keeps the order of the rest and leaves their values as they
      were. */
  lemma AggressiveScope(data: Value)
    requires data.Obj? && TokensComparable(data)
    ensures Aggressive(data).Ok? <==> StagesSucceed(data.fields, AggressiveLimits, true, AggressiveDepth)
    ensures Aggressive(data).Ok? ==>
      var after := Aggressive(data).value.fields;
      && StagesApplied(data.fields, after, AggressiveLimits, true, AggressiveDepth)
      && Keys(after) == RemoveAll(Keys(data.fields), Dropped())
      && (forall k :: k in Dropped() ==> Lookup(after, k) == None)
      && Lookup(after, "components") == (if HasKey(data.fields, "components") then Some(EmptyComponents) else None)
      && forall k :: k !in Dropped() && k != "components" && k != "assets" && k != "designTokens" && k != "tree" ==>
           Lookup(after, k) == Lookup(data.fields, k)
  {
    AggressiveIsChain(data);
    ChainRaises(data.fields, AggressiveLimits, true, AggressiveDepth);
    if Aggressive(data).Ok? {
      var chained := Chain(data.fields, AggressiveLimits, true, AggressiveDepth).value;
      ChainApplies(data.fields, AggressiveLimits, true, AggressiveDepth);
      FinishKeepsStageKeys(chained);
      StagesAppliedAcross(data.fields, chained, Finish(chained), AggressiveLimits, true, AggressiveDepth);
      FinishEffect(chained);
      assert HasKey(chained, "components") == HasKey(data.fields, "components");
    }
  }

  // Running a tier again.

  lemma StandardKeepsComparable(data: Value)
    requires TokensComparable(data) && Standard(data).Ok?
    ensures TokensComparable(Standard(data).value)
  {
    if data.Obj? {
      StandardScope(data);
      if Lookup(data.fields, "designTokens").Some? {
        Tokens.ReduceTokensKeepsComparable(Lookup(data.fields, "designTokens").value, false);
      }
    }
  }

  lemma AggressiveKeepsComparable(data: Value)
    requires TokensComparable(data) && Aggressive(data).Ok?
    ensures TokensComparable(Aggressive(data).value)
  {
    if data.Obj? {
      AggressiveScope(data);
      if Lookup(data.fields, "designTokens").Some? {
        Tokens.ReduceTokensKeepsComparable(Lookup(data.fields, "designTokens").value, true);
      }
    }
  }

  /** Pruning the assets a second time with the same limits changes nothing. */
  lemma PruneAssetsIdempotent(assets: Value, limits: Limits)
    requires PruneAssets(assets, limits).Ok?
    ensures var once := PruneAssets(assets, limits).value;
      PruneAssets(once, limits) == Ok(once)
  {
    var images := Assets.Prune(Assets.Image, assets, limits.imageKb).value.assets;
    var once := Assets.Prune(Assets.Svg, images, limits.svgKb).value.assets;
    Assets.PruneLeavesSettled(Assets.Image, assets, limits.imageKb);
    Assets.PruneLeavesSettled(Assets.Svg, images, limits.svgKb);
    assert Lookup(once.fields, "images") == Lookup(images.fields, "images");
    Assets.PruneSettled(Assets.Image, once, limits.imageKb);
    Assets.PruneSettled(Assets.Svg, once, limits.svgKb);
  }

  /** A document whose three stage keys are what their stages leave as they
      are goes through the chain unchanged. */
  lemma ChainSettled(fields: seq<Field>, limits: Limits, aggressive: bool, maxDepth: nat)
    requires ComparableIn(fields)
    requires Lookup(fields, "assets").Some? ==>
      PruneAssets(Lookup(fields, "assets").value, limits) == Ok(Lookup(fields, "assets").value)
    requires Lookup(fields, "designTokens").Some? ==>
      Tokens.ReduceTokens(Lookup(fields, "designTokens").value, aggressive) == Ok(Lookup(fields, "designTokens").value)
    requires Lookup(fields, "tree").Some? ==>
      Tree.SimplifyRoot(Lookup(fields, "tree").value, maxDepth) == Ok(Lookup(fields, "tree").value)
    ensures Chain(fields, limits, aggressive, maxDepth) == Ok(fields)
  {
    if Lookup(fields, "assets").Some? {
      ReplaceWithSame(fields, "assets", Lookup(fields, "assets").value);
    }
    if Lookup(fields, "designTokens").Some? {
      ReplaceWithSame(fields, "designTokens", Lookup(fields, "designTokens").value);
    }
    if Lookup(fields, "tree").Some? {
      ReplaceWithSame(fields, "tree", Lookup(fields, "tree").value);
    }
  }

  /** A document without the deleted keys and with `components` (if any)
      already blank is left as it is by the finishing deletions. */
  lemma FinishSettled(fields: seq<Field>)
    requires forall k :: k in Dropped() ==> Lookup(fields, k) == None
    requires HasKey(fields, "components") ==> Lookup(fields, "components") == Some(EmptyComponents)
    ensures Finish(fields) == fields
  {
    RemoveAbsentKeys(fields, {"screenshot"});
    if HasKey(fields, "components") {
      ReplaceWithSame(fields, "components", EmptyComponents);
    }
    RemoveAbsentKeys(fields, KeySet(OptionalKeys));
  }

  /** The colours of the document's tokens satisfy `FallbackStable` for the
      aggressive cap. */
  predicate TokensFallbackStable(data: Value) {
    data.Obj? ==>
      match Lookup(data.fields, "designTokens")
      case Some(tokens) => Tokens.ColorsFallbackStable(tokens, true)
      case None => true
  }

  /** Running the aggressive tier on its own output changes nothing, unless
      the first run kept the colours in their original order only because a
      colour beyond the cap was not a dict. */
  lemma AggressiveIdempotent(data: Value)
    requires TokensComparable(data) && Aggressive(data).Ok? && TokensFallbackStable(data)
    ensures var once := Aggressive(data).value;
      TokensComparable(once) && Aggressive(once) == Ok(once)
  {
    AggressiveKeepsComparable(data);
    if data.Obj? {
      var once := Aggressive(data).value;
      AggressiveScope(data);
      var fields := once.fields;
      if Lookup(data.fields, "assets").Some? {
        PruneAssetsIdempotent(Lookup(data.fields, "assets").value, AggressiveLimits);
      }
      if Lookup(data.fields, "designTokens").Some? {
        Tokens.ReduceTokensIdempotent(Lookup(data.fields, "designTokens").value, true);
      }
      if Lookup(data.fields, "tree").Some? {
        Tree.SimplifyRootIdempotent(Lookup(data.fields, "tree").value, AggressiveDepth);
      }
      ChainSettled(fields, AggressiveLimits, true, AggressiveDepth);
      assert HasKey(fields, "components") ==> HasKey(data.fields, "components");
      FinishSettled(fields);
      AggressiveIsChain(once);
    }
  }

  /** A document holding only design tokens. */
  lemma AggressiveOnTokensOnly(tokens: Value)
    requires Tokens.ColorsComparable(tokens) && Tokens.ReduceTokens(tokens, true).Ok?
    ensures TokensComparable(Obj([("designTokens", tokens)]))
    ensures Aggressive(Obj([("designTokens", tokens)])) ==
      Ok(Obj([("designTokens", Tokens.ReduceTokens(tokens, true).value)]))
  {
    var data := Obj([("designTokens", tokens)]);
    var reduced := [("designTokens", Tokens.ReduceTokens(tokens, true).value)];
    assert Lookup(data.fields, "designTokens") == Some(tokens);
    assert data.fields[1..] == [];
    assert Replace(data.fields, "designTokens", reduced[0].1) == [reduced[0]] + data.fields[1..] == reduced;
    assert Lookup(data.fields, "assets") == None;
    assert PruneIn(data.fields, AggressiveLimits) == Ok(data.fields);
    assert ReduceIn(data.fields, true) == Ok(reduced);
    assert Lookup(reduced, "tree") == None;
    assert SimplifyIn(reduced, AggressiveDepth) == Ok(reduced);
    assert Chain(data.fields, AggressiveLimits, true, AggressiveDepth) == Ok(reduced);
    assert Lookup(reduced, "components") == None;
    forall k | k in Dropped()
      ensures Lookup(reduced, k) == None
    {
      assert k != "designTokens";
    }
    FinishSettled(reduced);
    AggressiveIsChain(data);
    assert Aggressive(data) == Ok(Obj(Finish(reduced)));
  }

  /** A document that the aggressive tier changes again on its own output:
      fifteen colour tokens in increasing order of usage followed by one that
      is not a dict. The first run keeps the first fifteen as they were; the
      second finds only dicts and sorts them. */
  lemma AggressiveNotIdempotent()
    ensures var data := Obj([("designTokens", Obj([("colors", Obj(Tokens.MixedColors))]))]);
      && TokensComparable(data)
      && Aggressive(data).Ok?
      && TokensComparable(Aggressive(data).value)
      && Aggressive(Aggressive(data).value) != Aggressive(data)
  {
    var tokens := Obj([("colors", Obj(Tokens.MixedColors))]);
    Tokens.AggressiveTokensNotIdempotent();
    var once := Tokens.ReduceTokens(tokens, true).value;
    AggressiveOnTokensOnly(tokens);
    AggressiveOnTokensOnly(once);
  }

  /** The loaded document, which the tiers update in place. */
  class Payload {
    var data: Value

    constructor(data: Value)
      ensures this.data == data
    {
      this.data := data;
    }

    /** `if 'assets' in data:` prune images, then SVGs. */
    method PruneAssetsInPlace(limits: Limits) returns (ok: bool)
      requires data.Obj?
      modifies this
      ensures ok <==> PruneIn(old(data).fields, limits).Ok?
      ensures ok ==> data == Obj(PruneIn(old(data).fields, limits).value)
    {
      var assets := Lookup(data.fields, "assets");
      if assets.None? {
        return true;
      }
      var images := Assets.CompressImages(assets.value, limits.imageKb);
      if images.Raised? {
        return false;
      }
      var svgs := Assets.CompressSvgs(images.value.assets, limits.svgKb);
      if svgs.Raised? {
        return false;
      }
      data := Obj(Replace(data.fields, "assets", svgs.value.assets));
      return true;
    }

    /** `if 'designTokens' in data: compress_design_tokens(...)`. */
    method ReduceTokensInPlace(aggressive: bool) returns (ok: bool)
      requires data.Obj? && ComparableIn(data.fields)
      modifies this
      ensures ok <==> ReduceIn(old(data).fields, aggressive).Ok?
      ensures ok ==> data == Obj(ReduceIn(old(data).fields, aggressive).value)
    {
      var tokens := Lookup(data.fields, "designTokens");
      if tokens.None? {
        return true;
      }
      var reduced := Tokens.CompressDesignTokens(tokens.value, aggressive);
      if reduced.Raised? {
        return false;
      }
      data := Obj(Replace(data.fields, "designTokens", reduced.value));
      return true;
    }

    /** `if 'tree' in data: simplify_tree(data['tree'], max_depth)`. */
    method SimplifyTreeInPlace(maxDepth: nat) returns (ok: bool)
      requires data.Obj?
      modifies this
      ensures ok <==> SimplifyIn(old(data).fields, maxDepth).Ok?
      ensures ok ==> data == Obj(SimplifyIn(old(data).fields, maxDepth).value)
    {
      var tree := Lookup(data.fields, "tree");
      if tree.None? {
        return true;
      }
      if !tree.value.Obj? {
        var access := NonDictAccess(tree.value, Tree.MetadataKeys + ["children"]);
        ReplaceWithSame(data.fields, "tree", tree.value);
        return access.Ok?;
      }
      var simplified := Tree.SimplifyNode(tree.value, maxDepth, 0);
      data := Obj(Replace(data.fields, "tree", simplified));
      return true;
    }

    /** `compress_standard(data)`; `ok` is false when it raises. */
    method CompressStandard() returns (ok: bool)
      requires TokensComparable(data)
      modifies this
      ensures ok <==> Standard(old(data)).Ok?
      ensures ok ==> data == Standard(old(data)).value
    {
      if !data.Obj? {
        var access := NonDictAccess(data, StandardKeys);
        return access.Ok?;
      }
      ok := PruneAssetsInPlace(StandardLimits);
      if !ok {
        return;
      }
      ok := ReduceTokensInPlace(false);
      if !ok {
        return;
      }
      ok := SimplifyTreeInPlace(StandardDepth);
    }

    /** `compress_aggressive(data)`; `ok` is false when it raises. */
    method CompressAggressive() returns (ok: bool)
      requires TokensComparable(data)
      modifies this
      ensures ok <==> Aggressive(old(data)).Ok?
      ensures ok ==> data == Aggressive(old(data)).value
    {
      if !data.Obj? {
        var access := NonDictAccess(data, AggressiveKeys);
        return access.Ok?;
      }
      ok := PruneAssetsInPlace(AggressiveLimits);
      if !ok {
        return;
      }
      ok := ReduceTokensInPlace(true);
      if !ok {
        return;
      }
      if HasKey(data.fields, "screenshot") {
        data := Obj(RemoveKeys(data.fields, {"screenshot"}));
      } else {
        RemoveAbsentKeys(data.fields, {"screenshot"});
      }
      if HasKey(data.fields, "components") {
        data := Obj(Replace(data.fields, "components", EmptyComponents));
      }
      ok := SimplifyTreeInPlace(AggressiveDepth);
      if !ok {
        return;
      }
      var rest := DeletePresent(data.fields, OptionalKeys);
      data := Obj(rest);
    }
  }
}
