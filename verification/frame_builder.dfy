/**
 * The capture-step node that copies one value into the frame being built
 * (src/cadenza/jit/frame_builder.kt). Its specializations form a small state
 * machine over the descriptor's slot kind: an Illegal kind is promoted to the
 * kind a guard asks for, a set kind admits only itself, and the Object
 * fallback always applies.
 */
module FrameBuilders {
  import opened Wrappers
  import opened Types
  import opened Values
  import opened Nbe
  import opened Closures
  import opened Code

  /** The slot kinds of a frame descriptor; a slot never set reads as Illegal. */
  class FrameDescriptor {
    var kinds: map<int, SlotKind>

    constructor()
      ensures kinds == map[]
    {
      kinds := map[];
    }

    function Kind(slot: int): SlotKind
      reads this
    {
      if slot in kinds then kinds[slot] else Illegal
    }
  }

  /** The frame under construction: the slots written so far. */
  class BuildFrame {
    var slots: map<int, Value>

    constructor()
      ensures slots == map[]
    {
      slots := map[];
    }
  }

  /**
   * What a specialization hands back: its value, a request to rewrite the node
   * (UnexpectedResultException), or an exception from the right-hand side.
   */
  datatype Built = Built(value: Value) | Rewrite(miss: Value) | Raised(fault: Fault)

  class FrameBuilder {
    const slot: int
    const rhs: Code
    /** Specializations dropped by `rewriteOn` after a tag miss. */
    var booleanExcluded: bool
    var integerExcluded: bool

    constructor(slot: int, rhs: Code)
      ensures this.slot == slot && this.rhs == rhs
      ensures !booleanExcluded && !integerExcluded
    {
      this.slot := slot;
      this.rhs := rhs;
      booleanExcluded := false;
      integerExcluded := false;
    }

    /** The guard: promote an Illegal kind to `kind` and pass, otherwise pass iff the kind is `kind`. */
    method AllowsSlotKind(d: FrameDescriptor, kind: SlotKind) returns (ok: bool)
      requires kind != Illegal
      modifies d
      ensures old(d.Kind(slot)) == Illegal ==> ok && d.kinds == old(d.kinds)[slot := kind]
      ensures old(d.Kind(slot)) != Illegal ==> ok == (old(d.Kind(slot)) == kind) && d.kinds == old(d.kinds)
      ensures d.Kind(slot) != Illegal
    {
      var current := d.Kind(slot);
      if current == Illegal {
        d.kinds := d.kinds[slot := kind];
        return true;
      }
      return current == kind;
    }

    /**
     * `buildBoolean`: store the unboxed boolean and return it; a stuck
     * right-hand side stores its NeutralValue; a tag miss stores the exception
     * object itself and asks for a rewrite.
     */
    method BuildBoolean(invoke: Invoke, fuel: nat, frame: BuildFrame, oldFrame: Frame) returns (r: Built)
      modifies frame
      ensures var o := Exec(invoke, fuel, rhs, oldFrame, BooleanV);
        (o.Done? ==> r == Built(o.value) && frame.slots == old(frame.slots)[slot := o.value])
        && (o.Stuck? ==> r == Built(Boolean(false)) && frame.slots == old(frame.slots)[slot := Get(o)])
        && (o.Unexpected? ==> r == Rewrite(o.value) && frame.slots == old(frame.slots)[slot := VException(o.value)])
        && (o.Failed? ==> r == Raised(o.fault) && frame.slots == old(frame.slots))
    {
      var o := Exec(invoke, fuel, rhs, oldFrame, BooleanV);
      match o
      case Done(x) =>
        frame.slots := frame.slots[slot := x];
        r := Built(x);
      case Stuck(_, _) =>
        frame.slots := frame.slots[slot := Get(o)];
        r := Built(Boolean(false));
      case Unexpected(x) =>
        frame.slots := frame.slots[slot := VException(x)];
        r := Rewrite(x);
      case Failed(e) =>
        r := Raised(e);
    }

    /** `buildInteger`: the same protocol with `executeInteger`. */
    method BuildInteger(invoke: Invoke, fuel: nat, frame: BuildFrame, oldFrame: Frame) returns (r: Built)
      modifies frame
      ensures var o := Exec(invoke, fuel, rhs, oldFrame, IntegerV);
        (o.Done? ==> r == Built(o.value) && frame.slots == old(frame.slots)[slot := o.value])
        && (o.Stuck? ==> r == Built(Int(0)) && frame.slots == old(frame.slots)[slot := Get(o)])
        && (o.Unexpected? ==> r == Rewrite(o.value) && frame.slots == old(frame.slots)[slot := VException(o.value)])
        && (o.Failed? ==> r == Raised(o.fault) && frame.slots == old(frame.slots))
    {
      var o := Exec(invoke, fuel, rhs, oldFrame, IntegerV);
      match o
      case Done(x) =>
        frame.slots := frame.slots[slot := x];
        r := Built(x);
      case Stuck(_, _) =>
        frame.slots := frame.slots[slot := Get(o)];
        r := Built(Int(0));
      case Unexpected(x) =>
        frame.slots := frame.slots[slot := VException(x)];
        r := Rewrite(x);
      case Failed(e) =>
        r := Raised(e);
    }

    /** `buildObject`, the fallback: store whatever `executeAny` returns. */
    method BuildObject(invoke: Invoke, fuel: nat, frame: BuildFrame, oldFrame: Frame) returns (r: Built)
      requires NoTagMiss(invoke)
      modifies frame
      ensures var o := Exec(invoke, fuel, rhs, oldFrame, AnyV);
        (o.Done? ==> r == Built(o.value) && frame.slots == old(frame.slots)[slot := o.value])
        && (!o.Done? ==> o.Failed? && r == Raised(o.fault) && frame.slots == old(frame.slots))
    {
      ExecSignals(invoke, fuel, rhs, oldFrame, AnyV);
      var o := Exec(invoke, fuel, rhs, oldFrame, AnyV);
      if o.Done? {
        frame.slots := frame.slots[slot := o.value];
        r := Built(o.value);
      } else {
        r := Raised(o.fault);
      }
    }

    /** The slot kind after one dispatch, as the guards that run would leave it. */
    function NextKind(k: SlotKind): SlotKind
      reads this
    {
      if k != Illegal then k
      else if !booleanExcluded then KBoolean
      else if !integerExcluded then KInt
      else Illegal
    }

    /**
     * One step of the generated dispatch for a specialization still in place:
     * evaluate its guard and, when it passes, run it. `None` means the
     * dispatch moves on: the guard failed or the specialization asked to be
     * rewritten, which drops it.
     */
    method TryBoolean(invoke: Invoke, fuel: nat, d: FrameDescriptor, frame: BuildFrame, oldFrame: Frame) returns (r: Option<Built>)
      requires !booleanExcluded
      modifies this, d, frame
      ensures d.kinds == if old(d.Kind(slot)) == Illegal then old(d.kinds)[slot := KBoolean] else old(d.kinds)
      ensures integerExcluded == old(integerExcluded)
      ensures var o := Exec(invoke, fuel, rhs, oldFrame, BooleanV);
        (old(d.Kind(slot)) == Illegal || old(d.Kind(slot)) == KBoolean) && !o.Unexpected? ==>
          (r.Some? && !booleanExcluded
           && (o.Done? ==> r.value == Built(o.value) && frame.slots == old(frame.slots)[slot := o.value])
           && (o.Stuck? ==> r.value == Built(Boolean(false)) && frame.slots == old(frame.slots)[slot := Get(o)])
           && (o.Failed? ==> r.value == Raised(o.fault) && frame.slots == old(frame.slots)))
      ensures var o := Exec(invoke, fuel, rhs, oldFrame, BooleanV);
        (old(d.Kind(slot)) == Illegal || old(d.Kind(slot)) == KBoolean) && o.Unexpected? ==>
          (r.None? && booleanExcluded && frame.slots == old(frame.slots)[slot := VException(o.value)])
      ensures old(d.Kind(slot)) != Illegal && old(d.Kind(slot)) != KBoolean ==>
        r.None? && !booleanExcluded && frame.slots == old(frame.slots)
    {
      var ok := AllowsSlotKind(d, KBoolean);
      if !ok {
        return None;
      }
      var b := BuildBoolean(invoke, fuel, frame, oldFrame);
      if b.Rewrite? {
        booleanExcluded := true;
        return None;
      }
      return Some(b);
    }

    method TryInteger(invoke: Invoke, fuel: nat, d: FrameDescriptor, frame: BuildFrame, oldFrame: Frame) returns (r: Option<Built>)
      requires !integerExcluded
      modifies this, d, frame
      ensures d.kinds == if old(d.Kind(slot)) == Illegal then old(d.kinds)[slot := KInt] else old(d.kinds)
      ensures booleanExcluded == old(booleanExcluded)
      ensures var o := Exec(invoke, fuel, rhs, oldFrame, IntegerV);
        (old(d.Kind(slot)) == Illegal || old(d.Kind(slot)) == KInt) && !o.Unexpected? ==>
          (r.Some? && !integerExcluded
           && (o.Done? ==> r.value == Built(o.value) && frame.slots == old(frame.slots)[slot := o.value])
           && (o.Stuck? ==> r.value == Built(Int(0)) && frame.slots == old(frame.slots)[slot := Get(o)])
           && (o.Failed? ==> r.value == Raised(o.fault) && frame.slots == old(frame.slots)))
      ensures var o := Exec(invoke, fuel, rhs, oldFrame, IntegerV);
        (old(d.Kind(slot)) == Illegal || old(d.Kind(slot)) == KInt) && o.Unexpected? ==>
          (r.None? && integerExcluded && frame.slots == old(frame.slots)[slot := VException(o.value)])
      ensures old(d.Kind(slot)) != Illegal && old(d.Kind(slot)) != KInt ==>
        r.None? && !integerExcluded && frame.slots == old(frame.slots)
    {
      var ok := AllowsSlotKind(d, KInt);
      if !ok {
        return None;
      }
      var b := BuildInteger(invoke, fuel, frame, oldFrame);
      if b.Rewrite? {
        integerExcluded := true;
        return None;
      }
      return Some(b);
    }

    /**
     * The generated dispatch: the first specialization still in place whose
     * guard passes runs; a rewrite drops it and dispatches again, ending in
     * the fallback. Whenever the Int specialization does not run, the slot
     * finally holds exactly the value `executeAny` gives, so the exception
     * object a tag miss stores never survives.
     */
    method Execute(invoke: Invoke, fuel: nat, d: FrameDescriptor, frame: BuildFrame, oldFrame: Frame) returns (r: Built)
      requires NoTagMiss(invoke)
      modifies this, d, frame
      ensures d.kinds == if old(d.Kind(slot)) == Illegal && old(NextKind(Illegal)) != Illegal
        then old(d.kinds)[slot := old(NextKind(Illegal))] else old(d.kinds)
      ensures d.Kind(slot) == old(NextKind(d.Kind(slot)))
      ensures !r.Rewrite?
      ensures r.Raised? ==> Exec(invoke, fuel, rhs, oldFrame, AnyV) == Failed(r.fault)
      ensures r.Built? ==> slot in frame.slots
      ensures slot in frame.slots ==> frame.slots == old(frame.slots)[slot := frame.slots[slot]]
      ensures slot !in frame.slots ==> frame.slots == old(frame.slots)
      ensures r.Built? && d.Kind(slot) != KInt ==> Exec(invoke, fuel, rhs, oldFrame, AnyV) == Done(frame.slots[slot])
      ensures r.Built? && d.Kind(slot) == KInt && !integerExcluded ==>
        (var o := Exec(invoke, fuel, rhs, oldFrame, IntegerV); (o.Done? && frame.slots[slot] == o.value) || (o.Stuck? && frame.slots[slot] == Get(o)))
      ensures r.Built? && d.Kind(slot) == KInt && integerExcluded ==> Exec(invoke, fuel, rhs, oldFrame, AnyV) == Done(frame.slots[slot])
    {
      SpecializedAgreesWithAny(invoke, fuel, rhs, oldFrame);
      if !booleanExcluded {
        var b := TryBoolean(invoke, fuel, d, frame, oldFrame);
        if b.Some? {
          return b.value;
        }
      }
      r := DispatchAfterBoolean(invoke, fuel, d, frame, oldFrame);
    }

    /** The rest of the dispatch once the Boolean specialization has not run: Int, then the fallback. */
    method DispatchAfterBoolean(invoke: Invoke, fuel: nat, d: FrameDescriptor, frame: BuildFrame, oldFrame: Frame)
      returns (r: Built)
      requires NoTagMiss(invoke)
      modifies this, d, frame
      ensures d.kinds == if old(d.Kind(slot)) == Illegal && !old(integerExcluded)
        then old(d.kinds)[slot := KInt] else old(d.kinds)
      ensures booleanExcluded == old(booleanExcluded)
      ensures !r.Rewrite?
      ensures r.Raised? ==> Exec(invoke, fuel, rhs, oldFrame, AnyV) == Failed(r.fault)
      ensures r.Built? ==> slot in frame.slots
      ensures slot in frame.slots ==> frame.slots == old(frame.slots)[slot := frame.slots[slot]]
      ensures slot !in frame.slots ==> frame.slots == old(frame.slots)
      ensures r.Built? && d.Kind(slot) != KInt ==> Exec(invoke, fuel, rhs, oldFrame, AnyV) == Done(frame.slots[slot])
      ensures r.Built? && d.Kind(slot) == KInt && !integerExcluded ==>
        (var o := Exec(invoke, fuel, rhs, oldFrame, IntegerV); (o.Done? && frame.slots[slot] == o.value) || (o.Stuck? && frame.slots[slot] == Get(o)))
      ensures r.Built? && d.Kind(slot) == KInt && integerExcluded ==> Exec(invoke, fuel, rhs, oldFrame, AnyV) == Done(frame.slots[slot])
    {
      SpecializedAgreesWithAny(invoke, fuel, rhs, oldFrame);
      if !integerExcluded {
        var i := TryInteger(invoke, fuel, d, frame, oldFrame);
        if i.Some? {
          return i.value;
        }
      }
      r := BuildObject(invoke, fuel, frame, oldFrame);
    }
  }

  /**
   * What the Boolean and Int specializations store agrees with `executeAny`:
   * a boolean value is the same value, a stuck signal becomes the NeutralValue
   * `executeAny` returns, and a failure is the same failure.
   */
  lemma {:induction false} SpecializedAgreesWithAny(invoke: Invoke, fuel: nat, rhs: Code, f: Frame)
    requires NoTagMiss(invoke)
    ensures var a := Exec(invoke, fuel, rhs, f, AnyV);
      var b := Exec(invoke, fuel, rhs, f, BooleanV);
      var i := Exec(invoke, fuel, rhs, f, IntegerV);
      (a.Done? || a.Failed?)
      && (b.Done? ==> a == b)
      && (b.Stuck? ==> a == Done(Get(b)))
      && (b.Failed? ==> a == b)
      && (i.Stuck? ==> a == Done(Get(i)))
      && (i.Failed? ==> a == i)
  {
    AnyIsExecute(invoke, fuel, rhs, f);
    ExecSignals(invoke, fuel, rhs, f, AnyV);
    var b := Exec(invoke, fuel, rhs, f, BooleanV);
    var i := Exec(invoke, fuel, rhs, f, IntegerV);
    if b.Done? || b.Stuck? || b.Failed? {
      TypedAgrees(invoke, fuel, rhs, f, BooleanV);
    }
    if i.Stuck? || i.Failed? {
      TypedAgrees(invoke, fuel, rhs, f, IntegerV);
    }
  }

  /**
   * A fresh builder on a fresh slot always takes the Boolean guard first, so
   * the slot is fixed to Boolean before its value is seen, whatever that value is.
   */
  method FreshSlotBecomesBoolean(invoke: Invoke, fuel: nat, slot: int, rhs: Code, oldFrame: Frame)
    returns (kind: SlotKind, stored: Value)
    requires NoTagMiss(invoke)
    requires Exec(invoke, fuel, rhs, oldFrame, AnyV).Done?
    ensures kind == KBoolean
    ensures stored == Exec(invoke, fuel, rhs, oldFrame, AnyV).value
  {
    var d := new FrameDescriptor();
    var frame := new BuildFrame();
    var b := new FrameBuilder(slot, rhs);
    var r := b.Execute(invoke, fuel, d, frame, oldFrame);
    kind := d.Kind(slot);
    ExecSignals(invoke, fuel, rhs, oldFrame, AnyV);
    stored := frame.slots[slot];
  }
}
