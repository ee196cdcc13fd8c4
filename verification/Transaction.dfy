/**
 The transaction engine of blockdev.c over the dirty-bitmap actions: every action is prepared in turn,
 and if one fails, all of them, the failed one included, are aborted in reverse order.
 */
module Transactions {
  import opened Options

  type Node = string

  /** An HBitmap: the set bits, the number of bits, and the bytes that a bit stands for. */
  datatype HBitmap = HBitmap(bits: set<nat>, size: nat, granularity: nat)

  /** A BdrvDirtyBitmap with a name. */
  datatype Bitmap = Bitmap(
    hb: HBitmap,
    bytes: nat,
    disabled: bool,
    busy: bool,
    readonly: bool,
    inconsistent: bool,
    persistent: bool
  )

  datatype Key = Key(node: Node, name: string)

  type Store = map<Key, Bitmap>

  /** What the block layer says about nodes. */
  datatype Env = Env(
    nodes: set<Node>,
    length: Node -> Option<nat>,                   // bdrv_getlength
    defaultGranularity: Node -> nat,               // bdrv_get_default_bitmap_granularity
    canStore: (Node, string, nat) -> bool          // bdrv_can_store_new_dirty_bitmap
  )

  datatype Action =
    | Add(node: Node, name: string, granularity: Option<nat>, persistent: bool, disabled: bool)
    | Clear(node: Node, name: string)
    | Enable(node: Node, name: string)
    | Disable(node: Node, name: string)
    | Merge(node: Node, target: string, sources: seq<string>)
    | Abort

  datatype Mode = Individual | Grouped

  /** A BlockDirtyBitmapState, which starts out as zeroes. */
  datatype ActionState = ActionState(bitmap: Option<Key>, backup: Option<HBitmap>, prepared: bool, wasEnabled: bool)

  const ZERO: ActionState := ActionState(None, None, false, false)

  // -------------------------------------------------------------------------------------------
  // Bitmaps
  // -------------------------------------------------------------------------------------------

  /** hbitmap_alloc */
  function Alloc(bytes: nat, granularity: nat): HBitmap {
    HBitmap({}, if granularity == 0 then 0 else (bytes + granularity - 1) / granularity, granularity)
  }

  /** hbitmap_can_merge */
  predicate CanMerge(a: HBitmap, b: HBitmap) {
    a.size == b.size && a.granularity == b.granularity
  }

  /** hbitmap_merge of a and b into a result that holds r so far; it leaves the result alone if b is empty. */
  function Merged(a: HBitmap, b: HBitmap, r: HBitmap): HBitmap {
    if b.bits == {} then r else r.(bits := a.bits + b.bits)
  }

  /** bdrv_dirty_bitmap_check with BDRV_BITMAP_ALLOW_RO */
  predicate Usable(b: Bitmap) {
    !b.busy && !b.inconsistent
  }

  /** bdrv_dirty_bitmap_check with BDRV_BITMAP_DEFAULT */
  predicate Changeable(b: Bitmap) {
    !b.busy && !b.readonly && !b.inconsistent
  }

  predicate PowerOf2(n: nat) {
    n == 1 || (n > 1 && n % 2 == 0 && PowerOf2(n / 2))
  }

  // -------------------------------------------------------------------------------------------
  // Preparing
  // -------------------------------------------------------------------------------------------

  datatype Prepared = Prepared(ok: bool, s: Store, st: ActionState)

  function AddPrepare(env: Env, s: Store, a: Action): Prepared
    requires a.Add?
  {
    var g := if a.granularity.Some? then a.granularity.value else env.defaultGranularity(a.node);
    if |a.name| == 0 || a.node !in env.nodes then Prepared(false, s, ZERO)
    else if a.granularity.Some? && (g < 512 || !PowerOf2(g)) then Prepared(false, s, ZERO)
    else if a.persistent && !env.canStore(a.node, a.name, g) then Prepared(false, s, ZERO)
    else if Key(a.node, a.name) in s || env.length(a.node).None? then Prepared(false, s, ZERO)
    else
      var len := env.length(a.node).value;
      var b := Bitmap(Alloc(len, g), len, a.disabled, false, false, false, a.persistent);
      Prepared(true, s[Key(a.node, a.name) := b], ZERO.(prepared := true))
  }

  /** block_dirty_bitmap_lookup */
  function Lookup(env: Env, s: Store, node: Node, name: string): Option<Key> {
    if node in env.nodes && Key(node, name) in s then Some(Key(node, name)) else None
  }

  function ClearPrepare(env: Env, s: Store, a: Action): Prepared
    requires a.Clear?
  {
    var k := Lookup(env, s, a.node, a.name);
    if k.None? then Prepared(false, s, ZERO) else
    var b := s[k.value];
    if !Changeable(b) then Prepared(false, s, ZERO.(bitmap := k)) else
    Prepared(true, s[k.value := b.(hb := Alloc(b.bytes, b.hb.granularity))], ZERO.(bitmap := k, backup := Some(b.hb)))
  }

  function SwitchPrepare(env: Env, s: Store, node: Node, name: string, disabled: bool): Prepared {
    var k := Lookup(env, s, node, name);
    if k.None? then Prepared(false, s, ZERO) else
    var b := s[k.value];
    if !Usable(b) then Prepared(false, s, ZERO.(bitmap := k)) else
    Prepared(true, s[k.value := b.(disabled := disabled)], ZERO.(bitmap := k, wasEnabled := !b.disabled))
  }

  /** The loop of do_block_dirty_bitmap_merge: the sources from i on are added to an anonymous bitmap. */
  function MergeSources(s: Store, node: Node, sources: seq<string>, anon: HBitmap): Option<HBitmap> {
    if sources == [] then Some(anon) else
    var k := Key(node, sources[0]);
    if k !in s || !Usable(s[k]) || !CanMerge(anon, s[k].hb) then None else
    MergeSources(s, node, sources[1..], Merged(anon, s[k].hb, anon))
  }

  function MergePrepare(env: Env, s: Store, a: Action): Prepared
    requires a.Merge?
  {
    var k := Lookup(env, s, a.node, a.target);
    if k.None? || env.length(a.node).None? then Prepared(false, s, ZERO) else
    var dst := s[k.value];
    var anon := MergeSources(s, a.node, a.sources, Alloc(env.length(a.node).value, dst.hb.granularity));
    if anon.None? then Prepared(false, s, ZERO) else
    if !Changeable(dst) || !CanMerge(dst.hb, anon.value) then Prepared(false, s, ZERO.(bitmap := k)) else
    var hb := Merged(dst.hb, anon.value, Alloc(dst.bytes, dst.hb.granularity));
    Prepared(true, s[k.value := dst.(hb := hb)], ZERO.(bitmap := k, backup := Some(dst.hb)))
  }

  function Prepare(env: Env, mode: Mode, s: Store, a: Action): Prepared {
    if a.Abort? || mode.Grouped? then Prepared(false, s, ZERO) else
    match a
    case Add(_, _, _, _, _) => AddPrepare(env, s, a)
    case Clear(_, _) => ClearPrepare(env, s, a)
    case Enable(node, name) => SwitchPrepare(env, s, node, name, false)
    case Disable(node, name) => SwitchPrepare(env, s, node, name, true)
    case Merge(_, _, _) => MergePrepare(env, s, a)
  }

  // -------------------------------------------------------------------------------------------
  // Aborting
  // -------------------------------------------------------------------------------------------

  /** The state an abort leaves, or None where it follows a null pointer or hits an assertion. */
  function Undo(env: Env, s: Store, a: Action, st: ActionState): Option<Store> {
    match a
    case Abort => Some(s)
    case Add(node, name, _, _, _) =>
      if !st.prepared then Some(s) else
      var k := Lookup(env, s, node, name);
      if k.None? || s[k.value].busy || s[k.value].readonly then None else Some(s - {k.value})
    case Enable(_, _) => if st.wasEnabled then Some(s) else Switch(s, st.bitmap, true)
    case Disable(_, _) => if st.wasEnabled then Switch(s, st.bitmap, false) else Some(s)
    case Clear(_, _) => Restore(s, st)
    case Merge(_, _, _) => Restore(s, st)
  }

  function Switch(s: Store, k: Option<Key>, disabled: bool): Option<Store> {
    if k.None? || k.value !in s then None else Some(s[k.value := s[k.value].(disabled := disabled)])
  }

  /** block_dirty_bitmap_restore */
  function Restore(s: Store, st: ActionState): Option<Store> {
    if st.backup.None? then Some(s)
    else if st.bitmap.None? || st.bitmap.value !in s || s[st.bitmap.value].readonly then None
    else Some(s[st.bitmap.value := s[st.bitmap.value].(hb := st.backup.value)])
  }

  /** A successful prepare is undone by its abort. */
  lemma {:induction false} PrepareThenUndo(env: Env, mode: Mode, s: Store, a: Action)
    requires Prepare(env, mode, s, a).ok
    ensures var r := Prepare(env, mode, s, a); Undo(env, r.s, a, r.st) == Some(s)
  {
    var r := Prepare(env, mode, s, a);
    if a.Add? {
      assert r.s - {Key(a.node, a.name)} == s;
    } else if r.st.bitmap.Some? {
      var k := r.st.bitmap.value;
      assert Undo(env, r.s, a, r.st).value == s[k := s[k]] == s;
    }
  }

  /**
   An enable action whose own prepare fails is aborted all the same: it then disables the bitmap, or follows a
   null pointer if it found none.
   */
  predicate Harmful(env: Env, mode: Mode, s: Store, a: Action) {
    a.Enable? && (mode.Grouped? || Lookup(env, s, a.node, a.name).None? || !s[Key(a.node, a.name)].disabled)
  }

  /** A failed prepare changes nothing, and its abort changes nothing either, except for those enable actions. */
  lemma {:induction false} FailedPrepare(env: Env, mode: Mode, s: Store, a: Action)
    requires !Prepare(env, mode, s, a).ok
    ensures var r := Prepare(env, mode, s, a);
      r.s == s && (Undo(env, s, a, r.st) == Some(s) <==> !Harmful(env, mode, s, a))
  {
    var r := Prepare(env, mode, s, a);
    if a.Enable? && r.st.bitmap.Some? {
      var k := r.st.bitmap.value;
      assert Undo(env, s, a, r.st).value == s[k := s[k].(disabled := true)];
      if s[k].disabled { assert s[k := s[k].(disabled := true)] == s; } else {
        assert s[k := s[k].(disabled := true)][k] != s[k];
      }
    }
  }

  // -------------------------------------------------------------------------------------------
  // Whole transactions
  // -------------------------------------------------------------------------------------------

  datatype Outcome = Committed(s: Store) | RolledBack(s: Store) | Crashed

  /** One more abort of a rollback. */
  function Back(env: Env, o: Outcome, a: Action, st: ActionState): Outcome {
    if !o.RolledBack? then o else
    match Undo(env, o.s, a, st)
    case None => Crashed
    case Some(s) => RolledBack(s)
  }

  /** qmp_transaction: prepare the first action, do the rest, and come back if that failed. */
  function Transact(env: Env, mode: Mode, s: Store, actions: seq<Action>): Outcome
    decreases |actions|
  {
    if actions == [] then Committed(s) else
    var r := Prepare(env, mode, s, actions[0]);
    Back(env, if r.ok then Transact(env, mode, r.s, actions[1..]) else RolledBack(r.s), actions[0], r.st)
  }

  /** The action whose prepare fails, and the state it fails in. */
  function Failure(env: Env, mode: Mode, s: Store, actions: seq<Action>): Option<(Action, Store)>
    decreases |actions|
  {
    if actions == [] then None else
    var r := Prepare(env, mode, s, actions[0]);
    if r.ok then Failure(env, mode, r.s, actions[1..]) else Some((actions[0], s))
  }

  /** Actions only succeed on usable bitmaps: the others stay as they are, also when the action is undone. */
  lemma {:induction false} UnusableStays(env: Env, mode: Mode, s: Store, a: Action, k: Key, x: Bitmap)
    requires Prepare(env, mode, s, a).ok && k in Prepare(env, mode, s, a).s && !Usable(Prepare(env, mode, s, a).s[k])
    ensures var r := Prepare(env, mode, s, a);
      k in s && s[k] == r.s[k] && Undo(env, r.s[k := x], a, r.st) == Some(s[k := x])
  {
    var r := Prepare(env, mode, s, a);
    if a.Add? {
      assert k != Key(a.node, a.name);
      assert r.s[k := x] - {Key(a.node, a.name)} == s[k := x];
    } else {
      UnusableStaysElsewhere(env, mode, s, a, k, x);
    }
  }

  lemma {:induction false} UnusableStaysElsewhere(env: Env, mode: Mode, s: Store, a: Action, k: Key, x: Bitmap)
    requires !a.Add? && Prepare(env, mode, s, a).ok && k in Prepare(env, mode, s, a).s
    requires !Usable(Prepare(env, mode, s, a).s[k])
    ensures var r := Prepare(env, mode, s, a);
      k in s && s[k] == r.s[k] && Undo(env, r.s[k := x], a, r.st) == Some(s[k := x])
  {
    var r := Prepare(env, mode, s, a);
    if r.st.bitmap.Some? {
      var c := r.st.bitmap.value;
      assert c != k;
      assert Undo(env, r.s[k := x], a, r.st).value == s[k := x][c := s[c]] == s[k := x];
    }
  }

  function Disabled(s: Store, k: Key): Store
    requires k in s
  {
    s[k := s[k].(disabled := true)]
  }

  /**
   The outcome of every transaction.  A failed one restores all bitmaps, unless the failed action is an enable that
   found no bitmap, which crashes, or one that found an enabled bitmap it cannot use, which leaves it disabled.
   */
  lemma {:induction false} TransactIs(env: Env, mode: Mode, s: Store, actions: seq<Action>)
    ensures var o, f := Transact(env, mode, s, actions), Failure(env, mode, s, actions);
      match f
      case None => o.Committed?
      case Some((a, s')) =>
        if !Harmful(env, mode, s', a) then o == RolledBack(s)
        else if mode.Grouped? || Lookup(env, s', a.node, a.name).None? then o == Crashed
        else (Key(a.node, a.name) in s && !s[Key(a.node, a.name)].disabled && !Usable(s[Key(a.node, a.name)])
          && o == RolledBack(Disabled(s, Key(a.node, a.name))))
    decreases |actions|
  {
    if actions != [] {
      var r := Prepare(env, mode, s, actions[0]);
      if r.ok {
        TransactIs(env, mode, r.s, actions[1..]);
        PrepareThenUndo(env, mode, s, actions[0]);
        var f := Failure(env, mode, s, actions);
        if f.Some? && f.value.0.Enable? {
          var k := Key(f.value.0.node, f.value.0.name);
          if k in r.s && !Usable(r.s[k]) { UnusableStays(env, mode, s, actions[0], k, r.s[k].(disabled := true)); }
        }
      } else {
        FailedPrepare(env, mode, s, actions[0]);
      }
    }
  }

  /** All-or-nothing holds of a failed transaction exactly when the failing action is not such an enable. */
  lemma {:induction false} FailedTransactionRestores(env: Env, mode: Mode, s: Store, actions: seq<Action>)
    requires Failure(env, mode, s, actions).Some?
    ensures Transact(env, mode, s, actions) == RolledBack(s) <==>
      !Harmful(env, mode, Failure(env, mode, s, actions).value.1, Failure(env, mode, s, actions).value.0)
  {
    TransactIs(env, mode, s, actions);
    var a := Failure(env, mode, s, actions).value.0;
    if a.Enable? && Key(a.node, a.name) in s && !s[Key(a.node, a.name)].disabled {
      assert Disabled(s, Key(a.node, a.name))[Key(a.node, a.name)] != s[Key(a.node, a.name)];
    }
  }

  /** Enabling a bitmap that another operation uses fails, and leaves the bitmap disabled. */
  lemma {:induction false} FailedEnableDisables(env: Env, s: Store, node: Node, name: string)
    requires node in env.nodes && Key(node, name) in s && s[Key(node, name)].busy && !s[Key(node, name)].disabled
    ensures Transact(env, Individual, s, [Enable(node, name)]) == RolledBack(Disabled(s, Key(node, name)))
  {
    TransactIs(env, Individual, s, [Enable(node, name)]);
    assert Failure(env, Individual, s, [Enable(node, name)]) == Some((Enable(node, name), s));
  }

  // -------------------------------------------------------------------------------------------
  // What a merge action leaves in its target
  // -------------------------------------------------------------------------------------------

  /** The bits of all sources. */
  function AllBits(s: Store, node: Node, sources: seq<string>): set<nat> {
    if sources == [] then {} else
    (if Key(node, sources[0]) in s then s[Key(node, sources[0])].hb.bits else {}) + AllBits(s, node, sources[1..])
  }

  lemma {:induction false} MergeSourcesBits(s: Store, node: Node, sources: seq<string>, anon: HBitmap)
    requires MergeSources(s, node, sources, anon).Some?
    ensures MergeSources(s, node, sources, anon).value.bits == anon.bits + AllBits(s, node, sources)
  {
    if sources != [] {
      MergeSourcesBits(s, node, sources[1..], Merged(anon, s[Key(node, sources[0])].hb, anon));
    }
  }

  /**
   A merge action leaves the union of its target and its sources in the target, unless all sources are
   empty and the target is not: then the target loses its bits, because nothing is copied into the new bitmap.
   */
  lemma {:induction false} MergeActionBits(env: Env, s: Store, a: Action)
    requires a.Merge? && Prepare(env, Individual, s, a).ok
    ensures var k, r := Key(a.node, a.target), Prepare(env, Individual, s, a);
      k in s && k in r.s && (r.s[k].hb.bits == s[k].hb.bits + AllBits(s, a.node, a.sources)
                             <==> AllBits(s, a.node, a.sources) != {} || s[k].hb.bits == {})
  {
    var k := Key(a.node, a.target);
    MergeSourcesBits(s, a.node, a.sources, Alloc(env.length(a.node).value, s[k].hb.granularity));
    assert {} + AllBits(s, a.node, a.sources) == AllBits(s, a.node, a.sources);
    assert s[k].hb.bits + {} == s[k].hb.bits;
  }

  /** On a disk of two granules, the bitmap "target" has its first bit set and the bitmap "source" has none. */
  function Disk(): Env {
    Env({"disk"}, _ => Some(2 * 65536), _ => 65536, (_, _, _) => true)
  }

  function DiskBitmap(bits: set<nat>): Bitmap {
    Bitmap(HBitmap(bits, 2, 65536), 2 * 65536, false, false, false, false, false)
  }

  function DiskStore(): Store {
    map[Key("disk", "target") := DiskBitmap({0}), Key("disk", "source") := DiskBitmap({})]
  }

  /** Merging the empty bitmap into the other one succeeds, and clears it. */
  lemma {:induction false} MergeClears()
    ensures Transact(Disk(), Individual, DiskStore(), [Merge("disk", "target", ["source"])])
         == Committed(DiskStore()[Key("disk", "target") := DiskBitmap({})])
  {
    var a := Merge("disk", "target", ["source"]);
    assert Alloc(2 * 65536, 65536) == DiskBitmap({}).hb;
    assert MergeSources(DiskStore(), "disk", ["source"], DiskBitmap({}).hb) == Some(DiskBitmap({}).hb);
    var r := Prepare(Disk(), Individual, DiskStore(), a);
    assert r.ok && r.s == DiskStore()[Key("disk", "target") := DiskBitmap({})];
    assert [a][1..] == [] && Transact(Disk(), Individual, r.s, []) == Committed(r.s);
  }

  // -------------------------------------------------------------------------------------------
  // What a committed transaction has done
  // -------------------------------------------------------------------------------------------

  /** The bitmap k is in both stores, with the same size and properties, and nothing else differs. */
  ghost predicate OnlyChanges(s: Store, s': Store, k: Key) {
    && k in s && s'.Keys == s.Keys && (forall j | j in s && j != k :: s'[j] == s[j])
    && s'[k].(hb := s[k].hb, disabled := s[k].disabled) == s[k] && s'[k].hb.granularity == s[k].hb.granularity
  }

  /** What an action is for; only the merge of empty sources into a bitmap with bits is not what it should be. */
  ghost predicate Effect(s: Store, s': Store, a: Action) {
    match a
    case Abort => false
    case Add(node, name, _, persistent, disabled) =>
      var k := Key(node, name);
      && k !in s && s'.Keys == s.Keys + {k} && (forall j | j in s :: s'[j] == s[j])
      && s'[k].hb.bits == {} && s'[k].disabled == disabled && s'[k].persistent == persistent && Changeable(s'[k])
    case Clear(node, name) =>
      var k := Key(node, name);
      OnlyChanges(s, s', k) && Changeable(s[k]) && s'[k].disabled == s[k].disabled && s'[k].hb.bits == {}
    case Enable(node, name) =>
      var k := Key(node, name);
      OnlyChanges(s, s', k) && Usable(s[k]) && !s'[k].disabled && s'[k].hb == s[k].hb
    case Disable(node, name) =>
      var k := Key(node, name);
      OnlyChanges(s, s', k) && Usable(s[k]) && s'[k].disabled && s'[k].hb == s[k].hb
    case Merge(node, target, sources) =>
      var k, more := Key(node, target), AllBits(s, node, sources);
      && OnlyChanges(s, s', k) && Changeable(s[k]) && s'[k].disabled == s[k].disabled
      && s'[k].hb.bits == if more == {} then {} else s[k].hb.bits + more
  }

  lemma {:induction false} PrepareEffect(env: Env, mode: Mode, s: Store, a: Action)
    requires Prepare(env, mode, s, a).ok
    ensures Effect(s, Prepare(env, mode, s, a).s, a)
  {
    if a.Merge? {
      MergeSourcesBits(s, a.node, a.sources, Alloc(env.length(a.node).value, s[Key(a.node, a.target)].hb.granularity));
      assert {} + AllBits(s, a.node, a.sources) == AllBits(s, a.node, a.sources);
    }
  }

  /** A committed transaction has done every one of its actions, in their order, and nothing else. */
  lemma {:induction false} CommittedEffects(env: Env, mode: Mode, s: Store, actions: seq<Action>)
    returns (ss: seq<Store>)
    requires Transact(env, mode, s, actions).Committed?
    ensures |ss| == |actions| + 1 && ss[0] == s && Transact(env, mode, s, actions) == Committed(ss[|actions|])
    ensures forall i | 0 <= i < |actions| :: Effect(ss[i], ss[i + 1], actions[i])
    decreases |actions|
  {
    if actions == [] {
      ss := [s];
    } else {
      var r := Prepare(env, mode, s, actions[0]);
      PrepareEffect(env, mode, s, actions[0]);
      var rest := CommittedEffects(env, mode, r.s, actions[1..]);
      ss := [s] + rest;
      forall i | 0 <= i < |actions| ensures Effect(ss[i], ss[i + 1], actions[i]) {
        if i > 0 { assert Effect(rest[i - 1], rest[i], actions[1..][i - 1]); }
      }
    }
  }

  // -------------------------------------------------------------------------------------------
  // The engine in place
  // -------------------------------------------------------------------------------------------

  /** The aborts of the first |actions| actions, last one first. */
  function Unwind(env: Env, o: Outcome, actions: seq<Action>, states: seq<ActionState>): Outcome
    requires |states| == |actions|
    decreases |actions|
  {
    if actions == [] then o else
    var n := |actions| - 1;
    Unwind(env, Back(env, o, actions[n], states[n]), actions[..n], states[..n])
  }

  /** The process is alive and the store is as an abort leaves it, or the abort ends the process. */
  ghost predicate Undone(alive: bool, s: Store, o: Option<Store>) {
    if alive then o == Some(s) else o == None
  }

  class BlockDevices {
    const env: Env
    var store: Store

    constructor (env: Env, store: Store)
      ensures this.env == env && this.store == store
    {
      this.env, this.store := env, store;
    }

    /** The loop of do_block_dirty_bitmap_merge */
    method CollectSources(node: Node, sources: seq<string>, granularity: nat, bytes: nat)
      returns (anon: Option<HBitmap>)
      ensures anon == MergeSources(store, node, sources, Alloc(bytes, granularity))
    {
      var hb := Alloc(bytes, granularity);
      var i := 0;
      while i < |sources|
        invariant 0 <= i <= |sources|
        invariant MergeSources(store, node, sources[i..], hb) ==
          MergeSources(store, node, sources, Alloc(bytes, granularity))
      {
        var k := Key(node, sources[i]);
        assert sources[i..][1..] == sources[i + 1..];
        if k !in store || !Usable(store[k]) || !CanMerge(hb, store[k].hb) {
          return None;
        }
        hb := Merged(hb, store[k].hb, hb);
        i := i + 1;
      }
      return Some(hb);
    }

    /** block_dirty_bitmap_add_prepare, with qmp_block_dirty_bitmap_add */
    method PrepareAdd(a: Action) returns (ok: bool, st: ActionState)
      requires a.Add?
      modifies this
      ensures Prepared(ok, store, st) == AddPrepare(env, old(store), a)
    {
      st := ZERO;
      if |a.name| == 0 || a.node !in env.nodes {
        return false, st;
      }
      var granularity;
      if a.granularity.Some? {
        granularity := a.granularity.value;
        if granularity < 512 || !PowerOf2(granularity) {
          return false, st;
        }
      } else {
        granularity := env.defaultGranularity(a.node);
      }
      if a.persistent && !env.canStore(a.node, a.name, granularity) {
        return false, st;
      }
      var created := CreateBitmap(a.node, a.name, granularity);
      if !created {
        return false, st;
      }
      var k := Key(a.node, a.name);
      if a.disabled {
        store := store[k := store[k].(disabled := true)];
      }
      store := store[k := store[k].(persistent := a.persistent)];
      st := st.(prepared := true);
      ok := true;
    }

    /** bdrv_create_dirty_bitmap with a name */
    method CreateBitmap(node: Node, name: string, granularity: nat) returns (ok: bool)
      modifies this
      ensures ok <==> Key(node, name) !in old(store) && env.length(node).Some?
      ensures ok ==> store == old(store)[Key(node, name) :=
        Bitmap(Alloc(env.length(node).value, granularity), env.length(node).value, false, false, false, false, false)]
      ensures !ok ==> store == old(store)
    {
      if Key(node, name) in store || env.length(node).None? {
        return false;
      }
      var bytes := env.length(node).value;
      store := store[Key(node, name) := Bitmap(Alloc(bytes, granularity), bytes, false, false, false, false, false)];
      ok := true;
    }

    /** block_dirty_bitmap_clear_prepare, with bdrv_clear_dirty_bitmap */
    method PrepareClear(a: Action) returns (ok: bool, st: ActionState)
      requires a.Clear?
      modifies this
      ensures Prepared(ok, store, st) == ClearPrepare(env, old(store), a)
    {
      st := ZERO.(bitmap := Lookup(env, store, a.node, a.name));
      if st.bitmap.None? {
        return false, st;
      }
      var k := st.bitmap.value;
      if !Changeable(store[k]) {
        return false, st;
      }
      var backup := store[k].hb;
      store := store[k := store[k].(hb := Alloc(store[k].bytes, backup.granularity))];
      st := st.(backup := Some(backup));
      ok := true;
    }

    /** block_dirty_bitmap_enable_prepare */
    method PrepareEnable(a: Action) returns (ok: bool, st: ActionState)
      requires a.Enable?
      modifies this
      ensures Prepared(ok, store, st) == SwitchPrepare(env, old(store), a.node, a.name, false)
    {
      st := ZERO.(bitmap := Lookup(env, store, a.node, a.name));
      if st.bitmap.None? {
        return false, st;
      }
      var k := st.bitmap.value;
      if !Usable(store[k]) {
        return false, st;
      }
      st := st.(wasEnabled := !store[k].disabled);
      store := store[k := store[k].(disabled := false)];
      ok := true;
    }

    /** block_dirty_bitmap_disable_prepare */
    method PrepareDisable(a: Action) returns (ok: bool, st: ActionState)
      requires a.Disable?
      modifies this
      ensures Prepared(ok, store, st) == SwitchPrepare(env, old(store), a.node, a.name, true)
    {
      st := ZERO.(bitmap := Lookup(env, store, a.node, a.name));
      if st.bitmap.None? {
        return false, st;
      }
      var k := st.bitmap.value;
      if !Usable(store[k]) {
        return false, st;
      }
      st := st.(wasEnabled := !store[k].disabled);
      store := store[k := store[k].(disabled := true)];
      ok := true;
    }

    /** block_dirty_bitmap_merge_prepare, with do_block_dirty_bitmap_merge */
    method PrepareMerge(a: Action) returns (ok: bool, st: ActionState)
      requires a.Merge?
      modifies this
      ensures Prepared(ok, store, st) == MergePrepare(env, old(store), a)
    {
      st := ZERO;
      var k := Lookup(env, store, a.node, a.target);
      if k.None? || env.length(a.node).None? {
        return false, st;
      }
      var anon := CollectSources(a.node, a.sources, store[k.value].hb.granularity, env.length(a.node).value);
      if anon.None? {
        return false, st;
      }
      st := st.(bitmap := k);
      if !Changeable(store[k.value]) || !CanMerge(store[k.value].hb, anon.value) {
        return false, st;
      }
      var backup := store[k.value].hb;
      store := store[k.value := store[k.value].(hb := Alloc(store[k.value].bytes, backup.granularity))];
      if anon.value.bits != {} {
        store := store[k.value := store[k.value].(hb := store[k.value].hb.(bits := backup.bits + anon.value.bits))];
      }
      st := st.(backup := Some(backup));
      ok := true;
    }

    /** The prepare callback of an action, with action_check_completion_mode */
    method PrepareAction(mode: Mode, a: Action) returns (ok: bool, st: ActionState)
      modifies this
      ensures Prepared(ok, store, st) == Prepare(env, mode, old(store), a)
    {
      if mode.Grouped? {
        return false, ZERO;
      }
      match a {
        case Abort => ok, st := false, ZERO;
        case Add(_, _, _, _, _) => ok, st := PrepareAdd(a);
        case Clear(_, _) => ok, st := PrepareClear(a);
        case Enable(_, _) => ok, st := PrepareEnable(a);
        case Disable(_, _) => ok, st := PrepareDisable(a);
        case Merge(_, _, _) => ok, st := PrepareMerge(a);
      }
    }

    /** block_dirty_bitmap_add_abort, with qmp_block_dirty_bitmap_remove under error_abort */
    method AbortAdd(a: Action, st: ActionState) returns (alive: bool)
      requires a.Add?
      modifies this
      ensures Undone(alive, store, Undo(env, old(store), a, st))
    {
      alive := true;
      if st.prepared {
        var k := Lookup(env, store, a.node, a.name);
        if k.None? || store[k.value].busy || store[k.value].readonly {
          return false;
        }
        store := store - {k.value};
      }
    }

    /** block_dirty_bitmap_enable_abort */
    method AbortEnable(a: Action, st: ActionState) returns (alive: bool)
      requires a.Enable?
      modifies this
      ensures Undone(alive, store, Undo(env, old(store), a, st))
    {
      alive := true;
      if !st.wasEnabled {
        if st.bitmap.None? || st.bitmap.value !in store {
          return false;
        }
        store := store[st.bitmap.value := store[st.bitmap.value].(disabled := true)];
      }
    }

    /** block_dirty_bitmap_disable_abort */
    method AbortDisable(a: Action, st: ActionState) returns (alive: bool)
      requires a.Disable?
      modifies this
      ensures Undone(alive, store, Undo(env, old(store), a, st))
    {
      alive := true;
      if st.wasEnabled {
        if st.bitmap.None? || st.bitmap.value !in store {
          return false;
        }
        store := store[st.bitmap.value := store[st.bitmap.value].(disabled := false)];
      }
    }

    /** block_dirty_bitmap_restore, with bdrv_restore_dirty_bitmap */
    method RestoreBackup(a: Action, st: ActionState) returns (alive: bool)
      requires a.Clear? || a.Merge?
      modifies this
      ensures Undone(alive, store, Undo(env, old(store), a, st))
    {
      alive := true;
      if st.backup.Some? {
        if st.bitmap.None? || st.bitmap.value !in store || store[st.bitmap.value].readonly {
          return false;
        }
        store := store[st.bitmap.value := store[st.bitmap.value].(hb := st.backup.value)];
      }
    }

    /** The abort callback of an action; not alive where the process ends. */
    method AbortAction(a: Action, st: ActionState) returns (alive: bool)
      modifies this
      ensures Undone(alive, store, Undo(env, old(store), a, st))
    {
      match a {
        case Abort => alive := true;
        case Add(_, _, _, _, _) => alive := AbortAdd(a, st);
        case Clear(_, _) => alive := RestoreBackup(a, st);
        case Enable(_, _) => alive := AbortEnable(a, st);
        case Disable(_, _) => alive := AbortDisable(a, st);
        case Merge(_, _, _) => alive := RestoreBackup(a, st);
      }
    }

    /** qmp_transaction */
    method QmpTransaction(mode: Mode, actions: seq<Action>) returns (o: Outcome)
      modifies this
      ensures o == Transact(env, mode, old(store), actions)
      ensures o.Committed? || o.RolledBack? ==> store == o.s
    {
      var states: seq<ActionState> := [];
      var i := 0;
      assert actions[0..] == actions;
      while i < |actions|
        invariant 0 <= i <= |actions| && |states| == i
        invariant Unwind(env, Transact(env, mode, store, actions[i..]), actions[..i], states) ==
          Transact(env, mode, old(store), actions)
      {
        ghost var rest := Transact(env, mode, store, actions[i..]);
        var ok, st := PrepareAction(mode, actions[i]);
        assert actions[i..][1..] == actions[i + 1..];
        states := states + [st];
        assert actions[..i + 1][..i] == actions[..i] && states[..i] + [st] == states;
        i := i + 1;
        if !ok {
          o := RollBack(actions[..i], states);
          return;
        }
      }
      UnwindCommitted(env, store, actions[..i], states);
      return Committed(store);
    }

    /** The loop of qmp_transaction over the states in reverse */
    method RollBack(actions: seq<Action>, states: seq<ActionState>) returns (o: Outcome)
      requires |states| == |actions|
      modifies this
      ensures o == Unwind(env, RolledBack(old(store)), actions, states) && !o.Committed?
      ensures o.RolledBack? ==> store == o.s
    {
      var i := |actions|;
      assert actions[..i] == actions && states[..i] == states;
      while i > 0
        invariant 0 <= i <= |actions|
        invariant Unwind(env, RolledBack(store), actions[..i], states[..i]) ==
          Unwind(env, RolledBack(old(store)), actions, states)
      {
        i := i - 1;
        assert actions[..i + 1][..i] == actions[..i] && states[..i + 1][..i] == states[..i];
        var alive := AbortAction(actions[i], states[i]);
        if !alive {
          UnwindCrashed(env, actions[..i], states[..i]);
          return Crashed;
        }
      }
      return RolledBack(store);
    }
  }

  lemma {:induction false} UnwindCommitted(env: Env, s: Store, actions: seq<Action>, states: seq<ActionState>)
    requires |states| == |actions|
    ensures Unwind(env, Committed(s), actions, states) == Committed(s)
  {
    if actions != [] { UnwindCommitted(env, s, actions[..|actions| - 1], states[..|actions| - 1]); }
  }

  lemma {:induction false} UnwindCrashed(env: Env, actions: seq<Action>, states: seq<ActionState>)
    requires |states| == |actions|
    ensures Unwind(env, Crashed, actions, states) == Crashed
  {
    if actions != [] { UnwindCrashed(env, actions[..|actions| - 1], states[..|actions| - 1]); }
  }
}
