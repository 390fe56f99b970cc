// The entry path of a VMX vcpu (vmx.c:797-837, vmx.c:1683-1695, vmx.c:2486-2526, vmx.c:2544-2643) and the remote
// flush (ept.c:150-190), one step for each access to state that another CPU can see.
// Memory is sequentially consistent.

module VmxEntry {
  datatype Mode = OutsideRoot | InRoot | OutsideGuest | InGuest | Exiting

  /** Created and not yet in instp->vcpus, in it, taken out of it, and destroyed. */
  datatype Life = Fresh | Live | Dead | Gone

  /** Where the thread of a vcpu is. */
  datatype Pc =
    | Idle                 // may be preempted
    | Taken                // preemption off, at the top of __load_vcpu
    | Written              // vmx_local_vcpu written
    | Calling(to: int)     // waiting for the helper on the old CPU
    | Called               // helper done, or there was no old CPU
    | Requested            // flush requested
    | Pointed              // launched cleared, VMPTRLD done, vcpu->cpu not yet written
    | Loaded               // __load_vcpu has returned
    | Flushing             // request bit taken, flush still to come
    | Ready                // requests processed
    | InMode               // interrupts off, mode is IN_GUEST_MODE
    | ModeOk               // mode read again
    | Checked              // requests read as zero
    | Guest
    | Exited               // mode is OUTSIDE_GUEST_MODE, interrupts still off
    | InNmi

  /** The fields of struct vmx_vcpu, the CPU its thread holds, and the state of its VMCS in the hardware. */
  datatype Vcpu = Vcpu(
    life: Life, pc: Pc, on: int, cpu: int, mode: Mode, flush: bool, launched: bool,
    active: set<int>, hwLaunched: bool)

  /** ept_flush_remote_tlbs: before the lock, in the scan, after the request to v, after reading v->cpu,
      waiting for the IPI, returned. */
  datatype Phase = Lock | Scan | Asked(v: nat) | Read(v: nat, cpu: int) | Wait | Done

  datatype Flusher = Flusher(me: int, epoch: nat, nomask: bool, phase: Phase, done: set<nat>, mask: set<int>)

  /** tlb holds, for each CPU, the times at which the cached translations were filled; now is that clock. */
  datatype State = State(
    cpus: set<int>,              // online CPUs
    vs: map<nat, Vcpu>,
    local: map<int, nat>,        // vmx_local_vcpu; absent is NULL
    current: map<int, nat>,      // the current VMCS of a CPU
    tlb: map<int, set<nat>>,
    now: nat,
    fs: map<nat, Flusher>)

  /** What the thread of a vcpu does next. */
  datatype Action =
    | Publish | Unpublish | Root(mode: Mode) | Take(c: int)
    | LoadSkip | LoadWrite | LoadSame | Call | Helper | Request | Point | SetCpu | Put
    | TakeRequest | NoRequest | Flush | SetMode | CheckMode | CheckRequests | Abort | Enter | Fill | Exit(entered: bool)
    | NmiBegin | NmiEnd | Leave | Destroy

  datatype Step =
    | Create(v: nat)
    | Thread(v: nat, a: Action)
    | FlushStart(f: nat, me: int, nomask: bool) | FlushLock(f: nat) | Ask(f: nat, v: nat) | ReadCpu(f: nat)
    | Kick(f: nat) | ScanEnd(f: nat) | Ack(f: nat, c: int) | FlushDone(f: nat)

  /** No interrupt is answered from the mode change to the exit, nor while an NMI is handled.  After the exit one may
      be: vmx_handle_external_interrupt answers it before interrupts are enabled. */
  predicate IrqsOff(pc: Pc) {
    pc.InMode? || pc.ModeOk? || pc.Checked? || pc.Guest? || pc.InNmi?
  }

  /** CPU c takes an IPI only while no vcpu on it keeps it from doing so. */
  predicate IrqsOn(s: State, c: int) {
    forall v :: v in s.vs && s.vs[v].on == c ==> !IrqsOff(s.vs[v].pc)
  }

  /** No thread holds CPU c with preemption off. */
  predicate Free(s: State, c: int) {
    && (forall v :: v in s.vs ==> s.vs[v].on != c)
    && (forall f :: f in s.fs && !s.fs[f].phase.Done? ==> s.fs[f].me != c)
  }

  predicate Scanning(p: Phase) { p.Scan? || p.Asked? || p.Read? }

  /** vcpu_lock is not held by a flush. */
  predicate Unlocked(s: State) {
    forall f :: f in s.fs ==> !Scanning(s.fs[f].phase)
  }

  function Without<V>(m: map<int, V>, c: int): map<int, V> { m - {c} }

  function Drop(m: map<int, nat>, c: int, v: nat): map<int, nat> {
    if c in m && m[c] == v then m - {c} else m
  }

  function Stamps(s: State, c: int): set<nat> { if c in s.tlb then s.tlb[c] else {} }

  predicate IsLocal(s: State, c: int, v: nat) { c in s.local && s.local[c] == v }

  /** When the thread of vcpu v, whose fields are x, can take the action. */
  predicate Can(s: State, v: nat, x: Vcpu, a: Action) {
    match a
    case Publish => x.pc.Idle? && x.life.Fresh? && Unlocked(s)
    case Unpublish => x.pc.Idle? && x.life.Live? && Unlocked(s)
    case Root(mode) => x.pc.Idle? && x.life.Live? && (mode.OutsideRoot? || mode.InRoot?)
    case Take(c) => x.pc.Idle? && !x.life.Gone? && c in s.cpus && c >= 0 && Free(s, c)
    case LoadSkip => x.pc.Taken? && IsLocal(s, x.on, v)
    case LoadWrite => x.pc.Taken? && !IsLocal(s, x.on, v)
    case LoadSame => x.pc.Written? && x.cpu == x.on
    case Call => x.pc.Written? && x.cpu != x.on
    case Helper => x.pc.Calling? && IrqsOn(s, x.pc.to)
    case Request => x.pc.Called?
    case Point => x.pc.Requested?
    case SetCpu => x.pc.Pointed?
    case Put => x.pc.Loaded?
    case TakeRequest => x.pc.Loaded? && x.life.Live? && x.flush
    case NoRequest => x.pc.Loaded? && x.life.Live? && !x.flush
    case Flush => x.pc.Flushing?
    case SetMode => x.pc.Ready?
    case CheckMode => x.pc.InMode? && !x.mode.Exiting?
    case CheckRequests => x.pc.ModeOk? && !x.flush
    case Abort => x.pc.Ready? || x.pc.InMode? || x.pc.ModeOk?
    case Enter => x.pc.Checked?
    case Fill => x.pc.Guest?
    case Exit(entered) => if entered then x.pc.Guest? else x.pc.Checked?
    case NmiBegin => x.pc.Exited?
    case NmiEnd => x.pc.InNmi?
    case Leave => x.pc.Exited?
    case Destroy => x.pc.Loaded? && x.life.Dead?
  }

  /** The fields of the vcpu, and the state of its VMCS, after the action. */
  function After(x: Vcpu, a: Action): Vcpu {
    match a
    case Publish => x.(life := Live)
    case Unpublish => x.(life := Dead)
    case Root(mode) => x.(mode := mode)
    case Take(c) => x.(pc := Taken, on := c)
    // __load_vcpu
    case LoadSkip => x.(pc := Loaded)
    case LoadWrite => x.(pc := Written)
    case LoadSame => x.(pc := Loaded, active := x.active + {x.on})
    case Call => x.(pc := if x.cpu >= 0 then Calling(x.cpu) else Called)
    case Helper => if x.pc.Calling? then x.(pc := Called, active := x.active - {x.pc.to}, hwLaunched := false) else x
    case Request => x.(pc := Requested, flush := true)
    case Point => x.(pc := Pointed, launched := false, active := x.active + {x.on})
    case SetCpu => x.(pc := Loaded, cpu := x.on)
    case Put => x.(pc := Idle, on := -1)
    // vmx_process_vcpu_requests
    case TakeRequest => x.(pc := Flushing, flush := false)
    case NoRequest => x.(pc := Ready)
    case Flush => x.(pc := Ready)
    // with interrupts off
    case SetMode => x.(pc := InMode, mode := InGuest)
    case CheckMode => x.(pc := ModeOk)
    case CheckRequests => x.(pc := Checked)
    case Abort => x.(pc := Idle, on := -1, mode := OutsideGuest)
    case Enter => x.(pc := Guest, hwLaunched := true)
    case Fill => x
    case Exit(entered) => x.(pc := Exited, mode := OutsideGuest, launched := entered || x.launched)
    case NmiBegin => x.(pc := InNmi)
    case NmiEnd => x.(pc := Exited)
    case Leave => x.(pc := Idle, on := -1)
    // vmx_destroy_vcpu, after its load
    case Destroy =>
      x.(pc := Idle, on := -1, active := x.active - {x.on}, hwLaunched := false, launched := false, life := Gone)
  }

  function LocalAfter(s: State, v: nat, x: Vcpu, a: Action): map<int, nat> {
    match a
    case LoadWrite => s.local[x.on := v]
    case Helper => if x.pc.Calling? then Drop(s.local, x.pc.to, v) else s.local
    case NmiBegin => s.local[x.on := v]
    case NmiEnd => Without(s.local, x.on)
    case Destroy => Without(s.local, x.on)
    case _ => s.local
  }

  /** VMPTRLD makes the VMCS current on the CPU; VMCLEAR ends that. */
  function CurrentAfter(s: State, v: nat, x: Vcpu, a: Action): map<int, nat> {
    match a
    case LoadSame => s.current[x.on := v]
    case Point => s.current[x.on := v]
    case Helper => if x.pc.Calling? then Drop(s.current, x.pc.to, v) else s.current
    case Destroy => Drop(s.current, x.on, v)
    case _ => s.current
  }

  function TlbAfter(s: State, x: Vcpu, a: Action): map<int, set<nat>> {
    match a
    case Flush => Without(s.tlb, x.on)
    case Destroy => Without(s.tlb, x.on)
    case Fill => s.tlb[x.on := Stamps(s, x.on) + {s.now}]
    case _ => s.tlb
  }

  predicate Enabled(s: State, step: Step) {
    match step
    case Create(v) => v !in s.vs
    case Thread(v, a) => v in s.vs && Can(s, v, s.vs[v], a)
    case FlushStart(f, me, _) => f !in s.fs && me in s.cpus && me >= 0 && Free(s, me)
    case FlushLock(f) => f in s.fs && s.fs[f].phase.Lock? && Unlocked(s)
    case Ask(f, v) => f in s.fs && s.fs[f].phase.Scan? && v in s.vs && s.vs[v].life.Live? && v !in s.fs[f].done
    case ReadCpu(f) => f in s.fs && s.fs[f].phase.Asked? && s.fs[f].phase.v in s.vs
    case Kick(f) => f in s.fs && s.fs[f].phase.Read? && s.fs[f].phase.v in s.vs
    case ScanEnd(f) =>
      f in s.fs && s.fs[f].phase.Scan? && forall v :: v in s.vs && s.vs[v].life.Live? ==> v in s.fs[f].done
    case Ack(f, c) => f in s.fs && s.fs[f].phase.Wait? && c in s.fs[f].mask && IrqsOn(s, c)
    case FlushDone(f) => f in s.fs && s.fs[f].phase.Wait? && s.fs[f].mask == {}
  }

  function SetF(s: State, f: nat, x: Flusher): State { s.(fs := s.fs[f := x]) }

  /** The condition under which a scan looks at the mode of the vcpu it has asked. */
  predicate Kicks(x: Flusher) {
    x.phase.Read? && !x.nomask && x.phase.cpu != -1 && x.phase.cpu != x.me
  }

  function Apply(s: State, step: Step): State
    requires Enabled(s, step)
  {
    match step
    case Create(v) => s.(vs := s.vs[v := Vcpu(Fresh, Idle, -1, -1, OutsideRoot, false, false, {}, false)])
    case Thread(v, a) =>
      var x := s.vs[v];
      s.(vs := s.vs[v := After(x, a)], local := LocalAfter(s, v, x, a), current := CurrentAfter(s, v, x, a),
         tlb := TlbAfter(s, x, a))
    // ept_flush_remote_tlbs
    case FlushStart(f, me, nomask) =>
      SetF(s.(now := s.now + 1), f, Flusher(me, s.now + 1, nomask, Lock, {}, if nomask then s.cpus - {me} else {}))
    case FlushLock(f) => SetF(s, f, s.fs[f].(phase := Scan))
    case Ask(f, v) => SetF(s.(vs := s.vs[v := s.vs[v].(flush := true)]), f, s.fs[f].(phase := Asked(v)))
    case ReadCpu(f) => SetF(s, f, s.fs[f].(phase := Read(s.fs[f].phase.v, s.vs[s.fs[f].phase.v].cpu)))
    case Kick(f) =>
      var x, v := s.fs[f], s.fs[f].phase.v;
      var m := s.vs[v].mode;
      var mask := if Kicks(x) && !m.OutsideGuest? then x.mask + {x.phase.cpu} else x.mask;
      SetF(s.(vs := s.vs[v := s.vs[v].(mode := if Kicks(x) && m.InGuest? then Exiting else m)]),
           f, x.(phase := Scan, done := x.done + {v}, mask := mask))
    case ScanEnd(f) => SetF(s, f, s.fs[f].(phase := Wait))
    case Ack(f, c) => SetF(s, f, s.fs[f].(mask := s.fs[f].mask - {c}))
    case FlushDone(f) => SetF(s, f, s.fs[f].(phase := Done))
  }

  predicate Init(s: State) {
    s.vs == map[] && s.local == map[] && s.current == map[] && s.fs == map[]
  }
}
