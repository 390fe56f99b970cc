// The shared MSRs of a VMX vcpu: the tables of guest and host values and their indices, as vmx_setup_vmcs and
// setup_msr build them for whatever set of MSRs the CPU has (vmx.c:108-113, vmx.c:333-366, vmx.c:1290-1329,
// vmx.c:1369-1401), and the loads and saves that go through them (vmx.c:384-499).

module MsrTable {
  datatype Msr = SyscallMask | Lstar | KernelGsBase | Efer | Star | MiscFeatures | PlatformInfo

  const SHARED: seq<Msr> := [SyscallMask, Lstar, KernelGsBase, Efer, Star, MiscFeatures]
  const NR_MSRS: nat := 8

  datatype Entry = Entry(index: Msr, data: int)

  type Values = map<Msr, int>

  datatype Exit = Vmcall | EptViolation | ExternalInterrupt | MsrWrite | OtherExit

  /** What the tables mean: the shared MSRs the CPU has, their guest and host values, and the hardware's. */
  datatype State = State(
    tracked: set<Msr>, guest: Values, host: Values, hw: Values, loaded: bool, scheded: bool, last: Exit)

  predicate Full(v: Values) { forall m: Msr :: m in v }

  predicate WellFormed(s: State) { Full(s.hw) && s.guest.Keys == s.tracked && s.host.Keys == s.tracked }

  /** load_host_msr for each MSR of ms: nothing to write where the guest has the host's value. */
  function HostIn(s: State, ms: set<Msr>): State
    requires WellFormed(s)
  {
    s.(hw := map m | m in s.hw :: if m in ms && m in s.tracked && s.guest[m] != s.host[m] then s.host[m] else s.hw[m])
  }

  function GuestIn(s: State, ms: set<Msr>): State
    requires WellFormed(s)
  {
    s.(hw := map m | m in s.hw :: if m in ms && m in s.tracked && s.guest[m] != s.host[m] then s.guest[m] else s.hw[m])
  }

  /** save_host_msr for each MSR of ms. */
  function HostSaved(s: State, ms: set<Msr>): State
    requires WellFormed(s)
  {
    s.(host := map m | m in s.tracked :: if m in ms then s.hw[m] else s.host[m])
  }

  function First(i: nat): set<Msr>
    requires i <= |SHARED|
  {
    set k | 0 <= k < i :: SHARED[k]
  }

  /** vmx_load_host_msrs. */
  function HostOut(s: State): State
    requires WellFormed(s)
  {
    if s.loaded then HostIn(s, First(6)).(loaded := false) else s
  }

  /** save_guest_msr. */
  function GuestSaved(s: State, m: Msr): State
    requires WellFormed(s)
  {
    if m in s.tracked then s.(guest := s.guest[m := s.hw[m]]) else s
  }

  function GuestWritten(s: State, m: Msr, data: int): State
    requires WellFormed(s)
  {
    if m in s.tracked then s.(guest := s.guest[m := data]) else s
  }

  lemma NoneSaved(s: State)
    requires WellFormed(s)
    ensures HostSaved(s, First(0)) == s
  {
    assert HostSaved(s, First(0)).host == s.host;
  }

  lemma MoreSaved(s: State, i: nat)
    requires WellFormed(s) && i < 6
    ensures HostSaved(HostSaved(s, First(i)), {SHARED[i]}) == HostSaved(s, First(i + 1))
  {
    assert First(i + 1) == First(i) + {SHARED[i]};
  }

  lemma NoneIn(s: State)
    requires WellFormed(s)
    ensures HostIn(s, First(0)) == s && GuestIn(s, First(0)) == s
  {
    assert HostIn(s, First(0)).hw == s.hw && GuestIn(s, First(0)).hw == s.hw;
  }

  lemma MoreHost(s: State, i: nat)
    requires WellFormed(s) && i < 6
    ensures HostIn(HostIn(s, First(i)), {SHARED[i]}) == HostIn(s, First(i + 1))
  {
    assert First(i + 1) == First(i) + {SHARED[i]};
  }

  lemma MoreGuest(s: State, i: nat)
    requires WellFormed(s) && i < 6
    ensures GuestIn(GuestIn(s, First(i)), {SHARED[i]}) == GuestIn(s, First(i + 1))
  {
    assert First(i + 1) == First(i) + {SHARED[i]};
  }

  /** The position of an MSR in vmx_msr_index. */
  function Ord(m: Msr): nat {
    match m
    case SyscallMask => 0 case Lstar => 1 case KernelGsBase => 2 case Efer => 3 case Star => 4 case MiscFeatures => 5
    case PlatformInfo => 6
  }

  lemma OrdOf(k: nat)
    requires k < 6
    ensures Ord(SHARED[k]) == k
  {
  }

  lemma OrdOnly(m: Msr, n: Msr)
    ensures Ord(m) == Ord(n) <==> m == n
  {
  }

  /** The number of MSRs among the first k of vmx_msr_index that the CPU has: the place of the next one. */
  function Place(readable: set<Msr>, k: nat): (p: nat)
    requires k <= |SHARED|
    ensures p <= k
  {
    if k == 0 then 0 else Place(readable, k - 1) + if SHARED[k - 1] in readable then 1 else 0
  }

  lemma {:induction false} PlaceGrows(readable: set<Msr>, j: nat, k: nat)
    requires j < k <= |SHARED| && SHARED[j] in readable
    ensures Place(readable, j) < Place(readable, k)
  {
    if j + 1 < k { PlaceGrows(readable, j, k - 1); }
  }

  /** The MSRs in the tables as vmx_setup_vmcs leaves them to setup_msr. */
  predicate Built(ids: seq<Msr>, readable: set<Msr>) {
    && |ids| == Place(readable, 6) + 1 && ids[|ids| - 1] == PlatformInfo
    && (forall k :: 0 <= k < 6 && SHARED[k] in readable ==>
          Place(readable, k) < |ids| && ids[Place(readable, k)] == SHARED[k])
    && (forall i :: 0 <= i < |ids| - 1 ==> Ord(ids[i]) < 6 && ids[i] in readable)
    && (forall i, j :: 0 <= i < j < |ids| ==> ids[i] != ids[j])
  }

  /** A shared MSR is at its place and nowhere else, or the CPU does not have it. */
  lemma OnlyPlace(ids: seq<Msr>, readable: set<Msr>, k: nat)
    requires Built(ids, readable) && k < 6
    ensures Place(readable, k) < |ids|
    ensures forall i :: 0 <= i < |ids| ==> (ids[i] == SHARED[k] <==> SHARED[k] in readable && i == Place(readable, k))
    ensures Place(readable, k + 1) == Place(readable, k) + if SHARED[k] in readable then 1 else 0
    ensures SHARED[k] in readable <==> SHARED[k] in ids
  {
    hide Place, Ord;
    AtMost(readable, k, 6);
    PlaceStep(readable, k);
    if SHARED[k] in readable {
      PlaceGrows(readable, k, 6);
      assert ids[Place(readable, k)] == SHARED[k];
    }
    NotPlatform(k);
  }

  lemma PlaceStep(readable: set<Msr>, k: nat)
    requires k < 6
    ensures Place(readable, k + 1) == Place(readable, k) + if SHARED[k] in readable then 1 else 0
  {
  }

  lemma NotPlatform(k: nat)
    requires k < 6
    ensures SHARED[k] != PlatformInfo
  {
  }

  lemma {:induction false} AtMost(readable: set<Msr>, j: nat, k: nat)
    requires j <= k <= |SHARED|
    ensures Place(readable, j) <= Place(readable, k)
  {
    if j < k { AtMost(readable, j, k - 1); }
  }

  function Names(es: seq<Entry>): (ids: seq<Msr>)
    ensures |ids| == |es| && forall i :: 0 <= i < |es| ==> ids[i] == es[i].index
  {
    seq(|es|, i requires 0 <= i < |es| => es[i].index)
  }

  /** i is where m is listed, negative if it is not. */
  predicate IndexAt(ids: seq<Msr>, m: Msr, i: int) {
    if i < 0 then m !in ids else i < |ids| && ids[i] == m
  }

  predicate RowsAt(index: map<Msr, int>, tracked: set<Msr>, es: seq<Entry>) {
    forall m :: m in tracked ==> m in index && 0 <= index[m] < |es| && es[index[m]].index == m
  }

  function ReadRows(index: map<Msr, int>, tracked: set<Msr>, es: seq<Entry>): Values
    requires RowsAt(index, tracked, es)
  {
    map m | m in tracked :: es[index[m]].data
  }

  /** A new value in the row of one MSR is the new value of that MSR only. */
  lemma WriteRow(index: map<Msr, int>, tracked: set<Msr>, es: seq<Entry>, i: nat, data: int)
    requires RowsAt(index, tracked, es) && i < |es|
    requires es[i].index in tracked ==> index[es[i].index] == i
    ensures var m := es[i].index; var es' := es[i := Entry(m, data)];
      && RowsAt(index, tracked, es')
      && ReadRows(index, tracked, es') ==
         if m in tracked then ReadRows(index, tracked, es)[m := data] else ReadRows(index, tracked, es)
  {
  }

  predicate Indexed(ids: seq<Msr>, index: map<Msr, int>, readable: set<Msr>, m: Msr, save: nat) {
    m in index && IndexAt(ids, m, index[m]) && (index[m] >= 0 <==> m in readable) && index[m] < save
  }

  /** The first k shared MSRs. */
  predicate FirstIndexed(ids: seq<Msr>, index: map<Msr, int>, readable: set<Msr>, k: nat, save: nat) {
    k <= 5 && forall j :: 0 <= j < k ==> Indexed(ids, index, readable, SHARED[j], save)
  }

  lemma NoneIndexed(ids: seq<Msr>, readable: set<Msr>)
    ensures FirstIndexed(ids, map[], readable, 0, 0)
  {
  }

  function Swap(ids: seq<Msr>, i: nat, j: nat): seq<Msr>
    requires i < |ids| && j < |ids|
  {
    ids[j := ids[i]][i := ids[j]]
  }

  lemma SwapSelf(ids: seq<Msr>, i: nat)
    requires i < |ids|
    ensures Swap(ids, i, i) == ids
  {
  }

  lemma NoPlace(readable: set<Msr>)
    ensures Place(readable, 0) == 0
  {
  }

  /** The tables after i turns of the loop of vmx_setup_vmcs. */
  predicate Partial(ids: seq<Msr>, readable: set<Msr>, i: nat)
    requires i <= |SHARED|
  {
    && |ids| == Place(readable, i)
    && (forall k :: 0 <= k < i && SHARED[k] in readable ==>
          Place(readable, k) < |ids| && ids[Place(readable, k)] == SHARED[k])
    && (forall j :: 0 <= j < |ids| ==> Ord(ids[j]) < i && ids[j] in readable)
    && (forall j, k :: 0 <= j < k < |ids| ==> ids[j] != ids[k])
  }

  lemma PartialNone(readable: set<Msr>)
    ensures Partial([], readable, 0)
  {
  }

  lemma PartialNext(ids: seq<Msr>, readable: set<Msr>, i: nat)
    requires i < |SHARED| && Partial(ids, readable, i)
    ensures SHARED[i] !in ids && |ids| <= i
    ensures Partial(if SHARED[i] in readable then ids + [SHARED[i]] else ids, readable, i + 1)
  {
    hide Place, Ord;
    PlaceStep(readable, i);
    OrdOf(i);
    forall j | 0 <= j < |ids| ensures ids[j] != SHARED[i] { OrdOnly(ids[j], SHARED[i]); }
  }

  lemma PartialDone(ids: seq<Msr>, readable: set<Msr>)
    requires Partial(ids, readable, 6)
    ensures PlatformInfo !in ids && |ids| <= 6 && Built(ids + [PlatformInfo], readable)
  {
    hide Place;
    assert Ord(PlatformInfo) == 6;
  }

  /** MSR_PLATFORM_INFO is last; raised, it changes places with MSR_MISC_FEATURES_ENABLES if that is there. */
  lemma LastMoves(ids: seq<Msr>, readable: set<Msr>)
    requires Built(ids, readable)
    ensures var n, save := |ids| - 1, Place(readable, 5);
      && save <= n <= save + 1 && (n == save + 1 <==> MiscFeatures in readable)
      && (forall i :: 0 <= i < |ids| ==> (ids[i] == PlatformInfo <==> i == n))
      && (forall i :: 0 <= i < |ids| ==>
            (Swap(ids, n, save)[i] == MiscFeatures <==> MiscFeatures in readable && i == n))
      && Swap(ids, n, save)[..save] == ids[..save] && (forall m :: m in Swap(ids, n, save) <==> m in ids)
  {
    OnlyPlace(ids, readable, 5);
    var n, save := |ids| - 1, Place(readable, 5);
    var moved := Swap(ids, n, save);
    forall m ensures m in moved <==> m in ids {
      if m in ids {
        var i :| 0 <= i < |ids| && ids[i] == m;
        assert moved[if i == n then save else if i == save then n else i] == m;
      }
    }
  }

  class Vcpu {
    const guest: array<Entry>
    const host: array<Entry>
    var nmsrs: nat
    var saveNmsrs: nat
    var index: map<Msr, int>     // struct msr_index
    var loaded: bool             // guest_msrs_loaded
    var scheded: bool
    var last: Exit               // last_vmexit
    var hw: Values               // the MSRs of the CPU the thread is on

    /** Both tables list the same MSRs, each once. */
    ghost predicate Table()
      reads this`nmsrs, guest, host
    {
      && guest != host && guest.Length == NR_MSRS && host.Length == NR_MSRS && nmsrs <= NR_MSRS
      && (forall i :: 0 <= i < nmsrs ==> guest[i].index == host[i].index)
      && (forall i, j :: 0 <= i < j < nmsrs ==> guest[i].index != guest[j].index)
    }

    ghost function Ids(): seq<Msr>
      reads this`nmsrs, guest
      requires nmsrs <= guest.Length
    {
      Names(guest[..nmsrs])
    }

    /** Both tables hold the values the MSRs had when the vcpu was made. */
    ghost predicate Booted(boot: Values)
      reads this`nmsrs, guest, host
    {
      && Table() && Full(boot)
      && forall i :: 0 <= i < nmsrs ==> guest[i].data == host[i].data == boot[guest[i].index]
    }

    /** The kept indices point into the tables. */
    ghost predicate Tables()
      reads this`nmsrs, this`saveNmsrs, this`index, guest, host
    {
      Table() && saveNmsrs == nmsrs && forall m :: m in SHARED ==> m in index && IndexAt(Ids(), m, index[m])
    }

    ghost predicate Valid()
      reads this, guest, host
    {
      Tables() && Full(hw)
    }

    ghost function Tracked(): set<Msr>
      reads this`nmsrs, this`saveNmsrs, this`index, guest, host
      requires Tables()
    {
      set m | m in SHARED && index[m] >= 0
    }

    ghost function GuestValues(): Values
      reads this`nmsrs, this`saveNmsrs, this`index, guest, host
      requires Tables()
    {
      RowsFound();
      ReadRows(index, Tracked(), guest[..])
    }

    ghost function HostValues(): Values
      reads this`nmsrs, this`saveNmsrs, this`index, guest, host
      requires Tables()
    {
      RowsFound();
      ReadRows(index, Tracked(), host[..])
    }

    ghost function Value(): (s: State)
      reads this, guest, host
      requires Valid()
      ensures WellFormed(s)
    {
      State(Tracked(), GuestValues(), HostValues(), hw, loaded, scheded, last)
    }

    /** What a row of the tables means. */
    lemma Row(m: Msr)
      requires Tables() && m in SHARED
      ensures m in index && (m in Tracked() <==> 0 <= index[m]) && index[m] < saveNmsrs
      ensures saveNmsrs <= guest.Length && saveNmsrs <= host.Length
      ensures index[m] >= 0 ==>
                guest[index[m]] == Entry(m, GuestValues()[m]) && host[index[m]] == Entry(m, HostValues()[m])
    {
      assert IndexAt(Ids(), m, index[m]);
    }

    // ---- building the tables ----

    /** __find_msr_index. */
    method FindMsrIndex(m: Msr) returns (i: int)
      requires Table()
      ensures -1 <= i && IndexAt(Ids(), m, i)
    {
      i := 0;
      while i < nmsrs
        invariant 0 <= i <= nmsrs && forall k :: 0 <= k < i ==> guest[k].index != m
      {
        if guest[i].index == m { return; }
        i := i + 1;
      }
      i := -1;
    }

    method MoveMsrUp(from: nat, to: nat, ghost boot: Values)
      requires Booted(boot) && from < nmsrs && to < nmsrs
      modifies guest, host
      ensures Booted(boot) && Ids() == Swap(old(Ids()), from, to)
    {
      guest[to], guest[from] := guest[from], guest[to];
      host[to], host[from] := host[from], host[to];
    }

    /** One paragraph of setup_msr: the index is noted before the entry moves. */
    method Raise(m: Msr, save: nat, ghost boot: Values) returns (i: int, save': nat)
      requires Booted(boot) && save <= nmsrs && forall k :: 0 <= k < save ==> Ids()[k] != m
      modifies guest, host
      ensures Booted(boot) && -1 <= i && IndexAt(old(Ids()), m, i)
      ensures i < 0 ==> save' == save && Ids() == old(Ids())
      ensures i >= 0 ==> save' == save + 1 && save <= i < nmsrs && Ids() == Swap(old(Ids()), i, save)
    {
      i := FindMsrIndex(m);
      save' := save;
      if i >= 0 {
        MoveMsrUp(i, save, boot);
        save' := save + 1;
      }
    }

    /** The first five MSRs are in place already. */
    method RaiseInPlace(k: nat, ghost readable: set<Msr>, save: nat, ghost boot: Values) returns (i: int, save': nat)
      requires Booted(boot) && Built(Ids(), readable) && k < 5 && save == Place(readable, k)
      modifies guest, host
      ensures Booted(boot) && Ids() == old(Ids())
      ensures save' == Place(readable, k + 1) && -1 <= i < save' && IndexAt(Ids(), SHARED[k], i)
      ensures i >= 0 <==> SHARED[k] in readable
    {
      hide Built;
      OnlyPlace(Ids(), readable, k);
      i, save' := Raise(SHARED[k], save, boot);
      assert i >= 0 ==> i == save;
      assert i < 0 ==> SHARED[k] !in readable;
      assert Ids() == old(Ids());
    }

    /** One of the first five paragraphs. */
    method RaiseNext(k: nat, ghost readable: set<Msr>, save: nat, ghost boot: Values) returns (save': nat)
      requires Booted(boot) && Built(Ids(), readable) && k < 5 && save == Place(readable, k)
      requires FirstIndexed(Ids(), index, readable, k, save)
      modifies this`index, guest, host
      ensures Booted(boot) && Ids() == old(Ids())
      ensures save' == Place(readable, k + 1) && FirstIndexed(Ids(), index, readable, k + 1, save')
    {
      hide Built, IndexAt, Place;
      var i;
      i, save' := RaiseInPlace(k, readable, save, boot);
      AtMost(readable, k, k + 1);
      index := index[SHARED[k] := i];
    }

    method RaiseFirst(ghost readable: set<Msr>, ghost boot: Values) returns (save: nat)
      requires Booted(boot) && Built(Ids(), readable)
      modifies this`index, guest, host
      ensures Booted(boot) && Ids() == old(Ids())
      ensures save == Place(readable, 5) && FirstIndexed(Ids(), index, readable, 5, save)
    {
      hide Built, FirstIndexed, Place;
      assert Place(readable, 0) == 0 by { NoPlace(readable); }
      index := map[];
      NoneIndexed(Ids(), readable);
      save := RaiseNext(0, readable, 0, boot);
      save := RaiseNext(1, readable, save, boot);
      save := RaiseNext(2, readable, save, boot);
      save := RaiseNext(3, readable, save, boot);
      save := RaiseNext(4, readable, save, boot);
    }

    /** The last two paragraphs. */
    method RaiseLast(ghost readable: set<Msr>, save: nat, ghost boot: Values) returns (i: int, save': nat)
      requires Booted(boot) && Built(Ids(), readable) && save == Place(readable, 5)
      modifies guest, host
      ensures Booted(boot) && save <= save' == nmsrs
      ensures -1 <= i && IndexAt(Ids(), MiscFeatures, i) && (i >= 0 <==> MiscFeatures in readable)
      ensures Ids()[..save] == old(Ids()[..save]) && forall m :: m in Ids() <==> m in old(Ids())
    {
      hide Built, Place, Swap;
      LastMoves(Ids(), readable);
      var last;
      assert Ids()[nmsrs - 1] == PlatformInfo;
      last, save' := Raise(PlatformInfo, save, boot);
      assert last == nmsrs - 1;
      ghost var moved := Ids();
      assert MiscFeatures in readable ==> moved[nmsrs - 1] == MiscFeatures;
      i, save' := Raise(MiscFeatures, save', boot);
      assert i >= 0 ==> Ids() == moved by { if i >= 0 { SwapSelf(moved, i); } }
    }

    /** setup_msr.  Noting an index before the entry moves is right here: only MSR_PLATFORM_INFO moves, and its
        index is not kept. */
    method SetupMsr(ghost readable: set<Msr>, ghost boot: Values)
      requires Booted(boot) && Built(Ids(), readable) && Full(hw)
      modifies this`index, this`saveNmsrs, guest, host
      ensures Valid() && Booted(boot) && forall m :: m in SHARED ==> (index[m] >= 0 <==> m in readable)
    {
      hide Built;
      var save := RaiseFirst(readable, boot);
      var i;
      ghost var ids, n := Ids(), save;
      i, save := RaiseLast(readable, save, boot);
      index := index[MiscFeatures := i];
      saveNmsrs := save;
      forall m | m in SHARED
        ensures m in index && IndexAt(Ids(), m, index[m]) && (index[m] >= 0 <==> m in readable)
      {
        if m != MiscFeatures {
          assert exists k :: 0 <= k < 5 && SHARED[k] == m;
          assert Indexed(ids, index[MiscFeatures := -1], readable, m, n);
          assert index[m] >= 0 ==> ids[..n][index[m]] == m;
        }
      }
    }

    /** Add one row to both tables. */
    method Append(m: Msr, data: int, ghost boot: Values)
      requires Booted(boot) && nmsrs < NR_MSRS && data == boot[m] && m !in Ids()
      modifies this`nmsrs, guest, host
      ensures Booted(boot) && nmsrs == old(nmsrs) + 1 && Ids() == old(Ids()) + [m]
    {
      assert forall i :: 0 <= i < nmsrs ==> guest[i].index == Ids()[i];
      host[nmsrs] := Entry(m, data);
      guest[nmsrs] := host[nmsrs];
      nmsrs := nmsrs + 1;
    }

    /** The loop of vmx_setup_vmcs over vmx_msr_index, and MSR_PLATFORM_INFO after it. */
    method Fill(readable: set<Msr>, boot: Values)
      requires Booted(boot) && nmsrs == 0 && guest.Length == NR_MSRS
      modifies this`nmsrs, guest, host
      ensures Booted(boot) && Built(Ids(), readable)
    {
      hide Booted, Table, Built, Partial, Place;
      PartialNone(readable);
      assert Ids() == [];
      for i := 0 to |SHARED|
        invariant Booted(boot) && nmsrs <= guest.Length && nmsrs <= i && Partial(Ids(), readable, i)
      {
        var m := SHARED[i];
        PartialNext(Ids(), readable, i);
        if m in readable {
          assert m in boot by { Has(boot, m); }
          Append(m, boot[m], boot);
        }
      }
      PartialDone(Ids(), readable);
      assert PlatformInfo in boot by { Has(boot, PlatformInfo); }
      Append(PlatformInfo, boot[PlatformInfo], boot);
    }

    lemma Has(boot: Values, m: Msr)
      requires Booted(boot)
      ensures m in boot
    {
    }

    /** The MSR part of vmx_setup_vmcs, on a CPU whose MSRs hold boot and which has those in readable; where
        MSR_PLATFORM_INFO cannot be read its value is taken as 0. */
    constructor (readable: set<Msr>, boot: Values, platform: bool)
      requires Full(boot)
      ensures Valid() && fresh(guest) && fresh(host) && !loaded && hw == boot
      ensures Tracked() == set m | m in SHARED && m in readable
      ensures forall m :: m in Tracked() ==> GuestValues()[m] == HostValues()[m] == boot[m]
    {
      guest := new Entry[NR_MSRS](_ => Entry(PlatformInfo, 0));
      host := new Entry[NR_MSRS](_ => Entry(PlatformInfo, 0));
      nmsrs, saveNmsrs, index, loaded, scheded, last, hw := 0, 0, map[], false, false, OtherExit, boot;
      new;
      hide Tables, Tracked, GuestValues, HostValues;
      var values := boot[PlatformInfo := if platform then boot[PlatformInfo] else 0];
      Setup(readable, values);
    }

    method Setup(readable: set<Msr>, boot: Values)
      requires Booted(boot) && nmsrs == 0 && guest.Length == NR_MSRS && Full(hw)
      modifies this`nmsrs, this`index, this`saveNmsrs, guest, host
      ensures Tables() && Tracked() == set m | m in SHARED && m in readable
      ensures forall m :: m in Tracked() ==> m in boot && m in SHARED && GuestValues()[m] == HostValues()[m] == boot[m]
    {
      hide Built;
      Fill(readable, boot);
      SetupMsr(readable, boot);
      hide Tables, Tracked, GuestValues, HostValues;
      RowsBooted(readable, boot);
    }

    lemma RowsBooted(readable: set<Msr>, boot: Values)
      requires Tables() && Booted(boot) && forall m :: m in SHARED ==> (index[m] >= 0 <==> m in readable)
      ensures Tracked() == set m | m in SHARED && m in readable
      ensures forall m :: m in Tracked() ==> m in boot && m in SHARED && GuestValues()[m] == HostValues()[m] == boot[m]
    {
      forall m | m in SHARED
        ensures m in Tracked() ==> GuestValues()[m] == HostValues()[m] == boot[m]
      {
        Row(m);
        if m in Tracked() { assert guest[index[m]].data == boot[m]; }
      }
    }

    // ---- loads and saves ----

    method LoadHostMsr(m: Msr)
      requires Valid() && m in SHARED
      modifies this`hw
      ensures Valid() && Value() == HostIn(old(Value()), {m})
    {
      hide Tables, Tracked, GuestValues, HostValues;
      Row(m);
      var i := index[m];
      if i < 0 || i >= saveNmsrs { return; }
      if guest[i] == host[i] { return; }
      hw := hw[host[i].index := host[i].data];
      assert hw == HostIn(old(Value()), {m}).hw;
    }

    method LoadGuestMsr(m: Msr)
      requires Valid() && m in SHARED
      modifies this`hw
      ensures Valid() && Value() == GuestIn(old(Value()), {m})
    {
      hide Tables, Tracked, GuestValues, HostValues;
      Row(m);
      var i := index[m];
      if i < 0 || i >= saveNmsrs { return; }
      if guest[i] == host[i] { return; }
      hw := hw[guest[i].index := guest[i].data];
      assert hw == GuestIn(old(Value()), {m}).hw;
    }

    method LoadHostMsrs()
      requires Valid()
      modifies this`hw, this`loaded
      ensures Valid() && Value() == HostOut(old(Value()))
    {
      hide Tables, Tracked, GuestValues, HostValues, First, HostIn;
      if !loaded { return; }
      ghost var s := Value();
      NoneIn(s);
      for i := 0 to |SHARED|
        invariant Valid() && loaded && Value() == HostIn(s, First(i))
      {
        LoadHostMsr(SHARED[i]);
        MoreHost(s, i);
      }
      loaded := false;
    }

    method LoadGuestMsrs()
      requires Valid()
      modifies this`hw, this`loaded
      ensures Valid() && Value() == GuestIn(old(Value()), First(6)).(loaded := true)
    {
      hide Tables, Tracked, GuestValues, HostValues, First, GuestIn;
      ghost var s := Value();
      NoneIn(s);
      for i := 0 to |SHARED|
        invariant Valid() && Value() == GuestIn(s, First(i))
      {
        LoadGuestMsr(SHARED[i]);
        MoreGuest(s, i);
      }
      loaded := true;
    }

    method SetGuest(i: nat, data: int)
      requires Tables() && i < nmsrs
      modifies guest
      ensures Tables() && Tracked() == old(Tracked()) && HostValues() == old(HostValues())
      ensures var m := old(guest[i].index);
        GuestValues() == if m in Tracked() then old(GuestValues())[m := data] else old(GuestValues())
    {
      ghost var ids, es := Ids(), guest[..];
      RowIs(i);
      RowsFound();
      WriteRow(index, Tracked(), es, i, data);
      guest[i] := Entry(guest[i].index, data);
      hide Tracked, ReadRows, IndexAt;
      assert Ids() == ids;
      assert guest[..] == es[i := Entry(es[i].index, data)];
    }

    method SetHost(i: nat, data: int)
      requires Tables() && i < nmsrs
      modifies host
      ensures Tables() && Tracked() == old(Tracked()) && GuestValues() == old(GuestValues())
      ensures var m := old(host[i].index);
        HostValues() == if m in Tracked() then old(HostValues())[m := data] else old(HostValues())
    {
      ghost var ids, es := Ids(), host[..];
      RowIs(i);
      RowsFound();
      WriteRow(index, Tracked(), es, i, data);
      host[i] := Entry(host[i].index, data);
      hide Tracked, ReadRows, IndexAt;
      assert Ids() == ids;
      assert host[..] == es[i := Entry(es[i].index, data)];
    }

    /** The row at i is the row of its MSR. */
    lemma RowIs(i: nat)
      requires Tables() && i < nmsrs
      ensures guest[i].index == host[i].index && (guest[i].index in Tracked() ==> index[guest[i].index] == i)
    {
      var m := guest[i].index;
      if m in Tracked() { assert IndexAt(Ids(), m, index[m]); }
    }

    lemma RowsFound()
      requires Tables()
      ensures RowsAt(index, Tracked(), guest[..]) && RowsAt(index, Tracked(), host[..])
    {
      forall m | m in Tracked() ensures guest[index[m]].index == m { assert IndexAt(Ids(), m, index[m]); }
    }

    method SaveHostMsr(m: Msr)
      requires Valid() && m in SHARED
      modifies host
      ensures Valid() && Value() == HostSaved(old(Value()), {m})
    {
      hide Tables, Tracked, GuestValues, HostValues;
      Row(m);
      var i := index[m];
      if i < 0 || i >= saveNmsrs {
        assert HostSaved(Value(), {m}).host == Value().host;
        return;
      }
      assert i < nmsrs by { Row(m); SaveIsAll(); }
      SetHost(i, hw[host[i].index]);
      assert HostSaved(old(Value()), {m}).host == Value().host;
    }

    lemma NotTracked(m: Msr)
      requires Tables() && m !in Ids()
      ensures m !in Tracked()
    {
      if m in SHARED { assert IndexAt(Ids(), m, index[m]); }
    }

    lemma SaveIsAll()
      requires Tables()
      ensures saveNmsrs == nmsrs
    {
    }

    method SaveHostMsrs()
      requires Valid()
      modifies host
      ensures Valid() && Value() == HostSaved(old(Value()), First(6))
    {
      hide Tables, Tracked, GuestValues, HostValues, First, HostSaved;
      ghost var s := Value();
      NoneSaved(s);
      for i := 0 to |SHARED|
        invariant Valid() && Value() == HostSaved(s, First(i))
      {
        SaveHostMsr(SHARED[i]);
        MoreSaved(s, i);
      }
    }

    method SaveGuestMsr(m: Msr)
      requires Valid() && m in SHARED
      modifies guest
      ensures Valid() && Value() == GuestSaved(old(Value()), m)
    {
      hide Tables, Tracked, GuestValues, HostValues;
      Row(m);
      var i := index[m];
      if i < 0 || i >= saveNmsrs { return; }
      assert i < nmsrs by { SaveIsAll(); }
      SetGuest(i, hw[guest[i].index]);
    }

    /** The table update of vmx_handle_msr_write. */
    method HandleMsrWrite(m: Msr, data: int) returns (found: bool)
      requires Valid()
      modifies guest
      ensures Valid() && Value() == GuestWritten(old(Value()), m, data)
      ensures m in Tracked() ==> found && GuestValues() == old(GuestValues())[m := data]
      ensures m !in Tracked() ==> GuestValues() == old(GuestValues())
      ensures HostValues() == old(HostValues()) && Tracked() == old(Tracked())
    {
      hide Tracked, GuestValues, HostValues;
      var i := FindMsrIndex(m);
      found := i >= 0;
      if found {
        SetGuest(i, data);
      } else {
        NotTracked(m);
      }
    }
  }
}
