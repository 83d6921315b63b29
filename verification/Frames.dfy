/** Local variable frames. A frame is a small handle; its clones share the dense slots, the
    slots added for handlers, the symbolic locals of a restored frame, and a cached scope. */
module Frames {
  datatype Option<T> = None | Some(value: T)

  datatype Result<T> = Ok(value: T) | Err(fault: Fault)

  datatype Fault = MissingSlot(symbol: nat) | NotBound(symbol: nat) | DuplicateLocal(symbol: nat)

  type Value(==)

  // ----------------------------------------------------------- slot layouts

  predicate Increasing(symbols: seq<nat>) {
    forall i, j | 0 <= i < j < |symbols| :: symbols[i] < symbols[j]
  }

  /** A checked layout: one slot per symbol, in symbol order. */
  type Layout = symbols: seq<nat> | Increasing(symbols) witness []

  function SlotIn(symbols: seq<nat>, symbol: nat): (r: Option<nat>)
    ensures r.Some? ==> r.value < |symbols| && symbols[r.value] == symbol
    ensures r.None? ==> symbol !in symbols
  {
    if symbols == [] then None
    else if symbols[|symbols| - 1] == symbol then Some(|symbols| - 1)
    else SlotIn(symbols[..|symbols| - 1], symbol)
  }

  /** Sorts and deduplicates by inserting one symbol at a time. */
  method LayoutOf(symbols: seq<nat>) returns (layout: Layout)
    ensures forall s :: s in layout <==> s in symbols
  {
    var sorted: seq<nat> := [];
    var i := 0;
    while i < |symbols|
      invariant 0 <= i <= |symbols| && Increasing(sorted)
      invariant forall s :: s in sorted <==> s in symbols[..i]
    {
      var at := 0;
      while at < |sorted| && sorted[at] < symbols[i]
        invariant 0 <= at <= |sorted| && forall k | 0 <= k < at :: sorted[k] < symbols[i]
      {
        at := at + 1;
      }
      assert symbols[..i + 1] == symbols[..i] + [symbols[i]];
      if at == |sorted| || sorted[at] != symbols[i] {
        assert sorted == sorted[..at] + sorted[at..];
        sorted := sorted[..at] + [symbols[i]] + sorted[at..];
      }
      i := i + 1;
    }
    assert symbols[..|symbols|] == symbols;
    return sorted;
  }

  /** Where `symbol` belongs in a sorted list that does not have it. */
  method Place(locals: seq<(nat, Value)>, symbol: nat) returns (at: nat)
    requires SortedBySymbol(locals) && forall i | 0 <= i < |locals| :: locals[i].0 != symbol
    ensures at <= |locals|
    ensures forall i | 0 <= i < at :: locals[i].0 < symbol
    ensures forall i | at <= i < |locals| :: symbol < locals[i].0
  {
    at := 0;
    while at < |locals| && locals[at].0 < symbol
      invariant at <= |locals| && forall i | 0 <= i < at :: locals[i].0 < symbol
    {
      at := at + 1;
    }
  }

  lemma SameSize(small: set<nat>, large: set<nat>)
    requires small <= large
    ensures |small| == |large| <==> small == large
  {
    var rest := large - small;
    assert large == small + rest && |large| == |small| + |rest|;
  }

  // ----------------------------------------------------- slots as one map

  /** Every symbol has its own slot, in range; added slots come after the layout's. */
  predicate WellSlotted(layout: Layout, values: seq<Option<Value>>, additional: map<nat, nat>) {
    && |layout| <= |values|
    && (forall s <- additional :: s !in layout && |layout| <= additional[s] < |values|)
    && (forall s, t | s in additional && t in additional && s != t :: additional[s] != additional[t])
  }

  function SlotOf(layout: Layout, additional: map<nat, nat>, symbol: nat): Option<nat> {
    var slot := SlotIn(layout, symbol);
    if slot.Some? then slot else if symbol in additional then Some(additional[symbol]) else None
  }

  function SlottedBy(layout: Layout, additional: map<nat, nat>): set<nat> {
    (set s <- layout) + additional.Keys
  }

  lemma InRange(layout: Layout, values: seq<Option<Value>>, additional: map<nat, nat>, symbol: nat)
    requires WellSlotted(layout, values, additional)
    ensures SlotOf(layout, additional, symbol).Some? <==> symbol in SlottedBy(layout, additional)
    ensures SlotOf(layout, additional, symbol).Some? ==> SlotOf(layout, additional, symbol).value < |values|
  {
    if SlotIn(layout, symbol).Some? {
      assert layout[SlotIn(layout, symbol).value] in layout;
    }
  }

  lemma OwnSlot(layout: Layout, values: seq<Option<Value>>, additional: map<nat, nat>, s: nat, t: nat)
    requires WellSlotted(layout, values, additional) && s != t
    requires s in SlottedBy(layout, additional) && t in SlottedBy(layout, additional)
    ensures SlotOf(layout, additional, s) != SlotOf(layout, additional, t)
  {
  }

  function ValueAt(layout: Layout, values: seq<Option<Value>>, additional: map<nat, nat>, symbol: nat): Option<Value>
    requires WellSlotted(layout, values, additional)
  {
    InRange(layout, values, additional, symbol);
    var slot := SlotOf(layout, additional, symbol);
    if slot.None? then None else values[slot.value]
  }

  function Stored(layout: Layout, values: seq<Option<Value>>, additional: map<nat, nat>): map<nat, Value>
    requires WellSlotted(layout, values, additional)
  {
    map s | s in SlottedBy(layout, additional) && ValueAt(layout, values, additional, s).Some?
      :: ValueAt(layout, values, additional, s).value
  }

  lemma BoundSlotted(layout: Layout, values: seq<Option<Value>>, additional: map<nat, nat>)
    requires WellSlotted(layout, values, additional)
    ensures Stored(layout, values, additional).Keys <= SlottedBy(layout, additional)
  {
  }

  lemma BoundExactly(layout: Layout, values: seq<Option<Value>>, additional: map<nat, nat>, symbol: nat)
    requires WellSlotted(layout, values, additional) && symbol in SlottedBy(layout, additional)
    ensures SlotOf(layout, additional, symbol).Some? && SlotOf(layout, additional, symbol).value < |values|
    ensures symbol in Stored(layout, values, additional) <==> values[SlotOf(layout, additional, symbol).value].Some?
  {
    InRange(layout, values, additional, symbol);
  }

  /** What writing a symbol's slot does to the map. */
  function Written(bound: map<nat, Value>, symbol: nat, value: Option<Value>): map<nat, Value> {
    if value.Some? then bound[symbol := value.value] else bound - {symbol}
  }

  lemma WriteSlot(layout: Layout, values: seq<Option<Value>>, additional: map<nat, nat>, symbol: nat, value: Option<Value>)
    requires WellSlotted(layout, values, additional) && symbol in SlottedBy(layout, additional)
    ensures SlotOf(layout, additional, symbol).Some? && SlotOf(layout, additional, symbol).value < |values|
    ensures var after := values[SlotOf(layout, additional, symbol).value := value];
            && WellSlotted(layout, after, additional)
            && Stored(layout, after, additional) == Written(Stored(layout, values, additional), symbol, value)
  {
    hide SlotIn;
    InRange(layout, values, additional, symbol);
    var after := values[SlotOf(layout, additional, symbol).value := value];
    forall s | s in SlottedBy(layout, additional)
      ensures ValueAt(layout, after, additional, s) == if s == symbol then value else ValueAt(layout, values, additional, s)
    {
      InRange(layout, values, additional, s);
      if s != symbol {
        OwnSlot(layout, values, additional, s, symbol);
      }
    }
    StoredAfter(layout, values, after, additional, symbol, value);
  }

  lemma StoredAfter(layout: Layout, values: seq<Option<Value>>, after: seq<Option<Value>>, additional: map<nat, nat>, symbol: nat, value: Option<Value>)
    requires WellSlotted(layout, values, additional) && WellSlotted(layout, after, additional)
    requires symbol in SlottedBy(layout, additional)
    requires forall s <- SlottedBy(layout, additional) ::
               ValueAt(layout, after, additional, s) == if s == symbol then value else ValueAt(layout, values, additional, s)
    ensures Stored(layout, after, additional) == Written(Stored(layout, values, additional), symbol, value)
  {
    hide WellSlotted, SlottedBy, ValueAt;
    var old_, new_ := Stored(layout, values, additional), Stored(layout, after, additional);
    forall s ensures s in new_ <==> s in Written(old_, symbol, value) {
    }
  }

  /** The symbols whose slot is filled. */
  method StoredSymbols(layout: Layout, values: seq<Option<Value>>, additional: map<nat, nat>) returns (symbols: set<nat>)
    requires WellSlotted(layout, values, additional)
    ensures symbols == Stored(layout, values, additional).Keys
  {
    hide Stored, WellSlotted, SlotIn, SlotOf;
    symbols := {};
    var pending := SlottedBy(layout, additional);
    ghost var bound := Stored(layout, values, additional).Keys;
    BoundSlotted(layout, values, additional);
    while pending != {}
      invariant pending <= SlottedBy(layout, additional) && symbols == bound - pending
      decreases |pending|
    {
      var symbol :| symbol in pending;
      BoundExactly(layout, values, additional, symbol);
      if values[SlotOf(layout, additional, symbol).value].Some? {
        symbols := symbols + {symbol};
      }
      pending := pending - {symbol};
    }
  }

  // ---------------------------------------------------------------- storage

  /** An immutable scope snapshot; snapshots are compared by identity. */
  class ScopeSet {
    const symbols: set<nat>

    constructor (symbols: set<nat>)
      ensures this.symbols == symbols
    {
      this.symbols := symbols;
    }
  }

  class SlotStorage {
    var values: seq<Option<Value>>
    var additional: map<nat, nat>
    var scopeSymbols: ScopeSet?

    constructor (count: nat)
      ensures values == seq(count, _ => None) && additional == map[] && scopeSymbols == null
    {
      values, additional, scopeSymbols := seq(count, _ => None), map[], null;
    }
  }

  class RestoredStorage {
    var locals: map<nat, Value>

    constructor (locals: map<nat, Value>)
      ensures this.locals == locals
    {
      this.locals := locals;
    }
  }

  class Frame {
    const layout: Layout
    const slots: SlotStorage
    const restored: RestoredStorage?

    function Owned(): set<object> {
      if restored == null then {slots} else {slots, restored}
    }

    /** Another handle on the same storage. */
    predicate Aliases(other: Frame) {
      other.layout == layout && other.slots == slots && other.restored == restored
    }

    // ------------------------------------------------------------ invariant

    /** A restored frame has no slots at all. */
    ghost predicate Shaped()
      reads Owned()
    {
      && WellSlotted(layout, slots.values, slots.additional)
      && (restored != null ==> layout == [] && slots.additional == map[] && slots.values == [])
    }

    function Resolve(symbol: nat): Option<nat>
      reads slots
    {
      SlotOf(layout, slots.additional, symbol)
    }

    ghost function Slotted(): set<nat>
      reads slots
    {
      SlottedBy(layout, slots.additional)
    }

    /** The one finite map a frame stands for. */
    ghost function Bindings(): map<nat, Value>
      requires Shaped()
      reads Owned()
    {
      if restored != null then restored.locals else Stored(layout, slots.values, slots.additional)
    }

    /** The cached scope, when there is one, is exactly the bound symbols. */
    ghost predicate Valid()
      reads Owned()
    {
      Shaped() && (slots.scopeSymbols != null ==> slots.scopeSymbols.symbols == Bindings().Keys)
    }

    /** Symbols that can be bound here: any symbol of a restored frame, else the slotted ones. */
    ghost predicate Binds(symbol: nat)
      reads slots
    {
      restored != null || symbol in Slotted()
    }

    // ----------------------------------------------------------- construction

    constructor (layout: Layout)
      ensures Valid() && fresh(Owned()) && restored == null && this.layout == layout
      ensures Bindings() == map[] && Slotted() == (set s <- layout)
    {
      this.layout := layout;
      this.slots := new SlotStorage(|layout|);
      this.restored := null;
      new;
      forall s ensures ValueAt(layout, slots.values, map[], s).None? {
        InRange(layout, slots.values, map[], s);
      }
    }

    constructor Share(layout: Layout, slots: SlotStorage, restored: RestoredStorage?)
      ensures this.layout == layout && this.slots == slots && this.restored == restored
    {
      this.layout, this.slots, this.restored := layout, slots, restored;
    }

    method Clone() returns (alias: Frame)
      ensures Aliases(alias) && fresh(alias)
    {
      alias := new Frame.Share(layout, slots, restored);
    }

    // -------------------------------------------------------------- bindings

    method Get(symbol: nat) returns (r: Option<Value>)
      requires Valid()
      ensures r == if symbol in Bindings() then Some(Bindings()[symbol]) else None
    {
      InRange(layout, slots.values, slots.additional, symbol);
      var slot := Resolve(symbol);
      if slot.Some? {
        return slots.values[slot.value];
      }
      if restored != null && symbol in restored.locals {
        return Some(restored.locals[symbol]);
      }
      return None;
    }

    method Insert(symbol: nat, value: Value)
      requires Valid() && Binds(symbol)
      modifies Owned()
      ensures Valid() && Bindings() == old(Bindings())[symbol := value]
      ensures Slotted() == old(Slotted())
    {
      InRange(layout, slots.values, slots.additional, symbol);
      var slot := Resolve(symbol);
      if slot.Some? {
        WriteSlot(layout, slots.values, slots.additional, symbol, Some(value));
        hide Stored, WellSlotted, SlotIn;
        if slots.values[slot.value].None? {
          slots.scopeSymbols := null;
        }
        slots.values := slots.values[slot.value := Some(value)];
      } else {
        if symbol !in restored.locals {
          slots.scopeSymbols := null;
        }
        restored.locals := restored.locals[symbol := value];
      }
    }

    /** Only a bound symbol can be assigned. */
    method Set(symbol: nat, value: Value) returns (done: bool)
      requires Valid()
      modifies Owned()
      ensures Valid() && Slotted() == old(Slotted())
      ensures done == (symbol in old(Bindings()))
      ensures Bindings() == if done then old(Bindings())[symbol := value] else old(Bindings())
    {
      done := WithLocalMut(symbol, _ => value);
    }

    /** A synchronous update in place. */
    method WithLocalMut(symbol: nat, update: Value -> Value) returns (done: bool)
      requires Valid()
      modifies Owned()
      ensures Valid() && Slotted() == old(Slotted())
      ensures done == (symbol in old(Bindings()))
      ensures Bindings() == if done then old(Bindings())[symbol := update(old(Bindings())[symbol])] else old(Bindings())
    {
      InRange(layout, slots.values, slots.additional, symbol);
      var slot := Resolve(symbol);
      if slot.Some? {
        if slots.values[slot.value].None? {
          return false;
        }
        var value := Some(update(slots.values[slot.value].value));
        WriteSlot(layout, slots.values, slots.additional, symbol, value);
        hide WellSlotted, SlotIn;
        slots.values := slots.values[slot.value := value];
        return true;
      }
      if restored == null || symbol !in restored.locals {
        return false;
      }
      restored.locals := restored.locals[symbol := update(restored.locals[symbol])];
      return true;
    }

    // ---------------------------------------------------------------- scopes

    method CollectSymbols() returns (symbols: set<nat>)
      requires Valid()
      ensures symbols == Bindings().Keys
    {
      symbols := StoredSymbols(layout, slots.values, slots.additional);
      if restored != null {
        symbols := symbols + restored.locals.Keys;
      }
    }

    /** The bound symbols, from the cache when it is there. */
    method ScopeSymbols() returns (scope: ScopeSet)
      requires Valid()
      modifies slots
      ensures Valid() && Bindings() == old(Bindings()) && Slotted() == old(Slotted())
      ensures scope.symbols == Bindings().Keys
    {
      if slots.scopeSymbols != null {
        return slots.scopeSymbols;
      }
      var symbols := CollectSymbols();
      hide Stored, WellSlotted;
      scope := new ScopeSet(symbols);
      slots.scopeSymbols := scope;
    }

    /** Drops everything outside `keep`. When `keep` is the cached scope itself there is
        nothing to drop, and the sweep is skipped. */
    method CleanupTo(keep: ScopeSet)
      requires Valid()
      modifies Owned()
      ensures Valid() && Slotted() == old(Slotted())
      ensures Bindings() == Kept(old(Bindings()), old(Bindings()).Keys, keep.symbols)
    {
      if slots.scopeSymbols == keep {
        return;
      }
      Sweep(keep.symbols);
    }

    method Sweep(keep: set<nat>)
      requires Valid()
      modifies Owned()
      ensures Valid() && Slotted() == old(Slotted())
      ensures Bindings() == Kept(old(Bindings()), old(Bindings()).Keys, keep)
    {
      var removed := SweepSlots(keep);
      if restored != null {
        var count := |restored.locals|;
        restored.locals := map s | s in restored.locals && s in keep :: restored.locals[s];
        SameSize(restored.locals.Keys, old(restored.locals).Keys);
        assert |restored.locals| == |restored.locals.Keys| && count == |old(restored.locals).Keys|;
        removed := removed || |restored.locals| != count;
      }
      if removed {
        slots.scopeSymbols := null;
      }
    }

    /** The layout's slots in order, then the added ones in any order. */
    method SweepSlots(keep: set<nat>) returns (removed: bool)
      requires Shaped()
      modifies slots
      ensures Sweeping(old(slots.additional), old(slots.scopeSymbols))
      ensures var bound := old(Stored(layout, slots.values, slots.additional));
              && Stored(layout, slots.values, slots.additional) == Kept(bound, bound.Keys, keep)
              && removed == (Kept(bound, bound.Keys, keep) != bound)
    {
      hide WellSlotted, Stored, SlotIn, Kept;
      ghost var bound := Stored(layout, slots.values, slots.additional);
      BoundSlotted(layout, slots.values, slots.additional);
      removed := false;
      var i := 0;
      ghost var done: set<nat> := {};
      KeptNone(bound, keep);
      while i < |layout|
        invariant 0 <= i <= |layout| && done == set s <- layout[..i]
        invariant Sweeping(old(slots.additional), old(slots.scopeSymbols))
        invariant Stored(layout, slots.values, slots.additional) == Kept(bound, done, keep)
        invariant removed == (Kept(bound, done, keep) != bound)
      {
        SlotAt(i);
        assert layout[..i + 1] == layout[..i] + [layout[i]];
        removed := ClearSlot(layout[i], i, done, keep, bound, removed);
        done := done + {layout[i]};
        i := i + 1;
      }
      assert layout[..i] == layout;
      var rest := slots.additional.Keys;
      while rest != {}
        invariant rest <= slots.additional.Keys && Slotted() - rest <= done
        invariant Sweeping(old(slots.additional), old(slots.scopeSymbols))
        invariant Stored(layout, slots.values, slots.additional) == Kept(bound, done, keep)
        invariant removed == (Kept(bound, done, keep) != bound)
        decreases |rest|
      {
        var symbol :| symbol in rest;
        AddedSlot(symbol);
        removed := ClearSlot(symbol, slots.additional[symbol], done, keep, bound, removed);
        done := done + {symbol};
        rest := rest - {symbol};
      }
      KeptAll(bound, done, keep);
    }

    // ------------------------------------------------------------- snapshots

    /** The bindings in symbol order. */
    method SortedLocals() returns (locals: seq<(nat, Value)>)
      requires Valid()
      ensures SortedBySymbol(locals) && MapOf(locals) == Bindings()
    {
      hide WellSlotted, Stored, SlotIn, MapOf;
      var pending := CollectSymbols();
      ghost var bound := Bindings();
      locals := [];
      EmptyMap();
      while pending != {}
        invariant pending <= bound.Keys && SortedBySymbol(locals)
        invariant forall i | 0 <= i < |locals| :: locals[i].0 !in pending
        invariant MapOf(locals) == Kept(bound, pending, {})
        decreases |pending|
      {
        var symbol :| symbol in pending;
        var value := Get(symbol);
        var at := Place(locals, symbol);
        MapOfInsert(locals, at, symbol, value.value);
        locals := locals[..at] + [(symbol, value.value)] + locals[at..];
        pending := pending - {symbol};
      }
      KeptNone(bound, {});
    }

    /** Rebuilds a frame from its locals: all symbolic, no slots. */
    static method FromSnapshot(locals: seq<(nat, Value)>) returns (r: Result<Frame>)
      ensures r.Ok? <==> DistinctSymbols(locals)
      ensures r.Ok? ==> r.value.Valid() && fresh(r.value.Owned()) && r.value.restored != null
                        && r.value.Bindings() == MapOf(locals)
      ensures r.Err? ==> exists i, j :: 0 <= i < j < |locals| && locals[i].0 == locals[j].0 && r.fault == DuplicateLocal(locals[j].0)
    {
      var restored: map<nat, Value> := map[];
      var j := 0;
      while j < |locals|
        invariant 0 <= j <= |locals|
        invariant restored == MapOf(locals[..j]) && DistinctSymbols(locals[..j])
      {
        MapOfKeys(locals, j);
        if locals[j].0 in restored {
          return Err(DuplicateLocal(locals[j].0));
        }
        assert locals[..j + 1][..j] == locals[..j];
        restored := restored[locals[j].0 := locals[j].1];
        j := j + 1;
      }
      assert locals[..j] == locals;
      var slots := new SlotStorage(0);
      var storage := new RestoredStorage(restored);
      var frame := new Frame.Share([], slots, storage);
      return Ok(frame);
    }

    /** A closure's own frame: the captured symbols with the values they have now. */
    method Capture(own: Layout, symbols: seq<nat>) returns (r: Result<Frame>)
      requires Valid()
      ensures r.Ok? <==> forall s <- symbols :: s in own && s in Bindings()
      ensures r.Ok? ==> r.value.Valid() && fresh(r.value.Owned()) && r.value.layout == own
                        && r.value.Bindings() == map s | s in Bindings() && s in symbols :: Bindings()[s]
      ensures r.Err? ==> exists i :: 0 <= i < |symbols|
                           && (forall k | 0 <= k < i :: symbols[k] in own && symbols[k] in Bindings())
                           && r.fault == (if symbols[i] in own then NotBound(symbols[i]) else MissingSlot(symbols[i]))
    {
      hide WellSlotted, Stored, SlotIn;
      var captured := new Frame(own);
      var i := 0;
      while i < |symbols|
        invariant 0 <= i <= |symbols|
        invariant Valid() && Bindings() == old(Bindings())
        invariant captured.Valid() && fresh(captured.Owned()) && captured.Slotted() == set s <- own
        invariant captured.layout == own && captured.restored == null
        invariant forall s <- symbols[..i] :: s in own && s in Bindings()
        invariant captured.Bindings() == map s | s in Bindings() && s in symbols[..i] :: Bindings()[s]
      {
        assert symbols[..i + 1] == symbols[..i] + [symbols[i]];
        if symbols[i] !in own {
          return Err(MissingSlot(symbols[i]));
        }
        var value := Get(symbols[i]);
        if value.None? {
          return Err(NotBound(symbols[i]));
        }
        captured.Insert(symbols[i], value.value);
        i := i + 1;
      }
      assert symbols[..i] == symbols;
      return Ok(captured);
    }

    /** What a sweep leaves alone. */
    ghost predicate Sweeping(additional: map<nat, nat>, scope: ScopeSet?)
      reads Owned()
    {
      Shaped() && slots.additional == additional && slots.scopeSymbols == scope
    }

    method ClearSlot(symbol: nat, slot: nat, ghost done: set<nat>, keep: set<nat>, ghost bound: map<nat, Value>, removed: bool)
        returns (now: bool)
      requires Shaped() && symbol in Slotted() && Resolve(symbol) == Some(slot)
      requires Stored(layout, slots.values, slots.additional) == Kept(bound, done, keep)
      requires removed == (Kept(bound, done, keep) != bound)
      modifies slots
      ensures Sweeping(old(slots.additional), old(slots.scopeSymbols))
      ensures Stored(layout, slots.values, slots.additional) == Kept(bound, done + {symbol}, keep)
      ensures now == (Kept(bound, done + {symbol}, keep) != bound)
    {
      now := removed;
      InRange(layout, slots.values, slots.additional, symbol);
      KeptMore(bound, done, keep, symbol);
      if symbol !in keep {
        WriteSlot(layout, slots.values, slots.additional, symbol, None);
        now := removed || slots.values[slot].Some?;
        slots.values := slots.values[slot := None];
      }
    }

    lemma SlotAt(i: nat)
      requires Shaped() && i < |layout|
      ensures layout[i] in Slotted() && Resolve(layout[i]) == Some(i)
    {
    }

    lemma AddedSlot(symbol: nat)
      requires Shaped() && symbol in slots.additional
      ensures symbol in Slotted() && Resolve(symbol) == Some(slots.additional[symbol])
    {
      InRange(layout, slots.values, slots.additional, symbol);
    }

    /** A handler defined elsewhere brings its own symbols: each that has no slot gets a new
        one in the shared storage. A restored frame needs none. */
    method InstallScopeLayout(more: Layout)
      requires Valid()
      modifies slots
      ensures Valid() && Bindings() == old(Bindings())
      ensures Slotted() == if restored != null then old(Slotted()) else old(Slotted()) + (set s <- more)
    {
      if restored != null {
        return;
      }
      var i := 0;
      while i < |more|
        invariant 0 <= i <= |more|
        invariant Valid() && Bindings() == old(Bindings())
        invariant Slotted() == old(Slotted()) + (set s <- more[..i])
      {
        assert more[..i + 1] == more[..i] + [more[i]];
        InRange(layout, slots.values, slots.additional, more[i]);
        if Resolve(more[i]).None? {
          AddSlot(layout, slots.values, slots.additional, more[i]);
          slots.additional := slots.additional[more[i] := |slots.values|];
          slots.values := slots.values + [None];
        }
        i := i + 1;
      }
      assert more[..i] == more;
    }
  }

  /** The map a list of locals denotes; symbols are meant to be distinct. */
  function MapOf(locals: seq<(nat, Value)>): map<nat, Value> {
    if locals == [] then map[]
    else MapOf(locals[..|locals| - 1])[locals[|locals| - 1].0 := locals[|locals| - 1].1]
  }

  lemma EmptyMap()
    ensures MapOf([]) == map[]
  {
  }

  predicate DistinctSymbols(locals: seq<(nat, Value)>) {
    forall i, j | 0 <= i < j < |locals| :: locals[i].0 != locals[j].0
  }

  predicate SortedBySymbol(locals: seq<(nat, Value)>) {
    forall i, j | 0 <= i < j < |locals| :: locals[i].0 < locals[j].0
  }

  lemma {:induction false} MapOfKeys(locals: seq<(nat, Value)>, n: nat)
    requires n <= |locals|
    ensures forall s :: s in MapOf(locals[..n]) <==> exists i :: 0 <= i < n && locals[i].0 == s
    decreases n
  {
    if n > 0 {
      MapOfKeys(locals, n - 1);
      assert locals[..n][..n - 1] == locals[..n - 1];
    }
  }

  lemma {:induction false} MapOfInsert(locals: seq<(nat, Value)>, at: nat, symbol: nat, value: Value)
    requires at <= |locals| && forall i | 0 <= i < |locals| :: locals[i].0 != symbol
    ensures MapOf(locals[..at] + [(symbol, value)] + locals[at..]) == MapOf(locals)[symbol := value]
    decreases |locals|
  {
    var after := locals[..at] + [(symbol, value)] + locals[at..];
    if at == |locals| {
      assert after[..|locals|] == locals;
    } else {
      var front := locals[..|locals| - 1];
      MapOfInsert(front, at, symbol, value);
      assert after[..|after| - 1] == front[..at] + [(symbol, value)] + front[at..];
    }
  }

  /** The bindings that survive a sweep over `done`. */
  function Kept(bound: map<nat, Value>, done: set<nat>, keep: set<nat>): map<nat, Value> {
    map s | s in bound && (s !in done || s in keep) :: bound[s]
  }

  lemma KeptNone(bound: map<nat, Value>, keep: set<nat>)
    ensures Kept(bound, {}, keep) == bound
  {
  }

  lemma KeptAll(bound: map<nat, Value>, done: set<nat>, keep: set<nat>)
    requires bound.Keys <= done
    ensures Kept(bound, done, keep) == Kept(bound, bound.Keys, keep)
  {
  }

  lemma KeptMore(bound: map<nat, Value>, done: set<nat>, keep: set<nat>, symbol: nat)
    ensures Kept(bound, done + {symbol}, keep)
         == if symbol in keep then Kept(bound, done, keep) else Kept(bound, done, keep) - {symbol}
    ensures Kept(bound, done + {symbol}, keep) != bound
            <==> Kept(bound, done, keep) != bound || (symbol in Kept(bound, done, keep) && symbol !in keep)
  {
    var more := Kept(bound, done + {symbol}, keep);
    if symbol in Kept(bound, done, keep) && symbol !in keep {
      assert symbol in bound && symbol !in more;
    }
    if Kept(bound, done, keep) != bound {
      var s :| s in bound && s !in Kept(bound, done, keep);
      assert s !in more;
    }
  }

  lemma AddSlot(layout: Layout, values: seq<Option<Value>>, additional: map<nat, nat>, symbol: nat)
    requires WellSlotted(layout, values, additional) && symbol !in SlottedBy(layout, additional)
    ensures WellSlotted(layout, values + [None], additional[symbol := |values|])
    ensures Stored(layout, values + [None], additional[symbol := |values|]) == Stored(layout, values, additional)
  {
    hide SlotIn;
    var more := additional[symbol := |values|];
    forall s ensures ValueAt(layout, values + [None], more, s) == if s == symbol then None else ValueAt(layout, values, additional, s) {
      AddedValue(layout, values, additional, symbol, s);
    }
    AddedSymbols(layout, additional, symbol, |values|);
    hide WellSlotted, SlottedBy, ValueAt;
    var before, after := Stored(layout, values, additional), Stored(layout, values + [None], more);
    forall s ensures s in after <==> s in before {
    }
  }

  lemma AddedSymbols(layout: Layout, additional: map<nat, nat>, symbol: nat, slot: nat)
    ensures SlottedBy(layout, additional[symbol := slot]) == SlottedBy(layout, additional) + {symbol}
  {
  }

  lemma AddedValue(layout: Layout, values: seq<Option<Value>>, additional: map<nat, nat>, symbol: nat, s: nat)
    requires WellSlotted(layout, values, additional) && symbol !in SlottedBy(layout, additional)
    ensures WellSlotted(layout, values + [None], additional[symbol := |values|])
    ensures ValueAt(layout, values + [None], additional[symbol := |values|], s)
         == if s == symbol then None else ValueAt(layout, values, additional, s)
  {
    hide SlotIn;
    InRange(layout, values + [None], additional[symbol := |values|], s);
    InRange(layout, values, additional, s);
    InRange(layout, values, additional, symbol);
  }
}
