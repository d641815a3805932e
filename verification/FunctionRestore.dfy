/**
 * FUNCTION LOAD, DUMP and RESTORE on top of the registry and the payload format.
 *
 * Compiling a library is a parameter: a function that may fail and depends on the source alone.
 */
module FunctionRestore {
  import opened Options
  import opened Checksums
  import opened FunctionDump
  import opened FunctionRegistry
  import opened Words

  datatype Policy = Append | Replace | Flush

  datatype Answer = Done | BadPayload | BadLibrary | Refused(reason: AddResult)

  type Compiler = Bytes -> Option<Library>

  /** A compiled library carries its own source and registers no name twice. */
  ghost predicate Compiles(compile: Compiler) {
    forall code :: compile(code).Some? ==> compile(code).value.code == code && Distinct(compile(code).value)
  }

  /** Every library in the registry is what its source compiles to. */
  predicate Compiled(libs: Libraries, compile: Compiler) {
    forall n :: n in libs ==> compile(libs[n].code) == Some(libs[n])
  }

  function CompileAll(compile: Compiler, sources: seq<Bytes>): Option<seq<Library>> {
    if sources == [] then Some([])
    else match CompileAll(compile, sources[..|sources| - 1])
      case None => None
      case Some(libraries) =>
        match compile(sources[|sources| - 1])
        case None => None
        case Some(l) => Some(libraries + [l])
  }

  lemma {:induction false} CompiledAll(compile: Compiler, sources: seq<Bytes>)
    requires Compiles(compile) && CompileAll(compile, sources).Some?
    ensures var libraries := CompileAll(compile, sources).value;
      |libraries| == |sources|
      && forall i :: 0 <= i < |libraries| ==> compile(sources[i]) == Some(libraries[i]) && Distinct(libraries[i])
  {
    if sources != [] {
      CompiledAll(compile, sources[..|sources| - 1]);
    }
  }

  lemma {:induction false} FirstUncompiled(compile: Compiler, sources: seq<Bytes>, k: nat)
    requires k < |sources| && compile(sources[k]).None?
    ensures CompileAll(compile, sources).None?
  {
    if k < |sources| - 1 {
      FirstUncompiled(compile, sources[..|sources| - 1], k);
    }
  }

  lemma {:induction false} AddAllCompiled(libs: Libraries, incoming: seq<Library>, replace: bool, compile: Compiler)
    requires Compiled(libs, compile) && AddAll(libs, incoming, replace).Some?
    requires forall i :: 0 <= i < |incoming| ==> compile(incoming[i].code) == Some(incoming[i])
    ensures Compiled(AddAll(libs, incoming, replace).value, compile)
    decreases |incoming|
  {
    if incoming != [] {
      AddAllCompiled(libs[incoming[0].name := incoming[0]], incoming[1..], replace, compile);
    }
  }

  method Load(registry: Registry, compile: Compiler, source: Bytes, replace: bool) returns (answer: Answer)
    requires registry.Valid() && Compiles(compile) && Compiled(registry.libraries, compile)
    modifies registry
    ensures registry.Valid() && Compiled(registry.libraries, compile)
    ensures match compile(source)
      case None =>
        answer == BadLibrary && registry.libraries == old(registry.libraries) && registry.generation == old(registry.generation)
      case Some(l) =>
        if Verdict(old(registry.libraries), l, replace) == Ok
        then answer == Done && registry.libraries == old(registry.libraries)[l.name := l]
             && registry.generation == old(registry.generation) + 1
        else answer == Refused(Verdict(old(registry.libraries), l, replace))
             && registry.libraries == old(registry.libraries) && registry.generation == old(registry.generation)
  {
    match compile(source)
    case None => answer := BadLibrary;
    case Some(l) =>
      var result, detail := registry.AddLocked(l, replace, false);
      answer := if result == Ok then Done else Refused(result);
  }

  /** The sources in the order of the registry's map, encoded. */
  method DumpRegistry(registry: Registry) returns (payload: Bytes)
    requires registry.Valid()
    ensures exists order :: Enumerates(order, registry.libraries) && payload == Encode(Sources(order))
  {
    var libraries, stamp := registry.Snapshot();
    var sources: seq<Bytes> := [];
    for i := 0 to |libraries|
      invariant sources == Sources(libraries[..i])
    {
      assert libraries[..i + 1][..i] == libraries[..i];
      sources := sources + [libraries[i].code];
    }
    assert libraries[..|libraries|] == libraries;
    payload := Dump(sources);
  }

  function Sources(order: seq<Library>): seq<Bytes> {
    if order == [] then [] else Sources(order[..|order| - 1]) + [order[|order| - 1].code]
  }

  /** What RESTORE has to do to the libraries. */
  function RestoreOf(libs: Libraries, compile: Compiler, payload: Bytes, policy: Policy): (Answer, Libraries) {
    match Meaning(payload)
    case None => (BadPayload, libs)
    case Some(sources) =>
      match CompileAll(compile, sources)
      case None => (BadLibrary, libs)
      case Some(incoming) =>
        var start := if policy == Flush then map[] else libs;
        match AddAll(start, incoming, policy == Replace)
        case Some(after) => (Done, after)
        case None => (Refused(FirstRefusal(start, incoming, policy == Replace)), libs)
  }

  method Restore(registry: Registry, compile: Compiler, payload: Bytes, policy: Policy) returns (answer: Answer)
    requires registry.Valid() && |payload| < TWO_32 && Compiles(compile) && Compiled(registry.libraries, compile)
    modifies registry
    ensures registry.Valid() && Compiled(registry.libraries, compile)
    ensures (answer, registry.libraries) == RestoreOf(old(registry.libraries), compile, payload, policy)
    ensures registry.generation == old(registry.generation) + (if answer == Done then 1 else 0)
  {
    var decoded := Decode(payload);
    if decoded.None? {
      return BadPayload;
    }
    var incoming := CompileEach(compile, decoded.value);
    if incoming.None? {
      return BadLibrary;
    }
    CompiledAll(compile, decoded.value);
    assert Compiled(map[], compile);
    ghost var start := if policy == Flush then map[] else registry.libraries;
    if AddAll(start, incoming.value, policy == Replace).Some? {
      AddAllCompiled(start, incoming.value, policy == Replace, compile);
    }
    var result := registry.ReplaceAll(incoming.value, policy == Flush, policy == Replace);
    answer := if result == Ok then Done else Refused(result);
  }

  /** Compiles the sources in order and stops at the first that fails. */
  method CompileEach(compile: Compiler, sources: seq<Bytes>) returns (incoming: Option<seq<Library>>)
    ensures incoming == CompileAll(compile, sources)
  {
    var libraries: seq<Library> := [];
    for i := 0 to |sources|
      invariant CompileAll(compile, sources[..i]) == Some(libraries)
    {
      assert sources[..i + 1][..i] == sources[..i];
      match compile(sources[i]) {
        case None =>
          FirstUncompiled(compile, sources, i);
          return None;
        case Some(l) =>
          libraries := libraries + [l];
      }
    }
    assert sources[..|sources|] == sources;
    incoming := Some(libraries);
  }

  // ---- the round trip ----------------------------------------------------------------------------------

  lemma {:induction false} SourcesCompile(order: seq<Library>, compile: Compiler)
    requires forall i :: 0 <= i < |order| ==> compile(order[i].code) == Some(order[i])
    ensures CompileAll(compile, Sources(order)) == Some(order)
  {
    if order != [] {
      var last := |order| - 1;
      SourcesCompile(order[..last], compile);
      CompileOneMore(compile, Sources(order[..last]), order[last].code, order[..last], order[last]);
      assert order == order[..last] + [order[last]];
    }
  }

  lemma CompileOneMore(compile: Compiler, sources: seq<Bytes>, source: Bytes, libraries: seq<Library>, l: Library)
    requires CompileAll(compile, sources) == Some(libraries) && compile(source) == Some(l)
    ensures CompileAll(compile, sources + [source]) == Some(libraries + [l])
  {
    assert (sources + [source])[..|sources|] == sources;
  }

  /** The first `k` libraries of an enumeration. */
  function First(order: seq<Library>, k: nat): Libraries
    requires k <= |order|
  {
    if k == 0 then map[] else First(order, k - 1)[order[k - 1].name := order[k - 1]]
  }

  lemma {:induction false} FirstHolds(order: seq<Library>, k: nat, n: Bytes)
    requires k <= |order|
    ensures n in First(order, k) ==> exists i :: 0 <= i < k && order[i].name == n && First(order, k)[n] == order[i]
    ensures forall i :: 0 <= i < k ==> order[i].name in First(order, k)
  {
    if k != 0 {
      FirstHolds(order, k - 1, n);
    }
  }

  /** The next library of an enumeration is never refused. */
  lemma NextAdmitted(libs: Libraries, order: seq<Library>, k: nat)
    requires Wellformed(libs) && Enumerates(order, libs) && k < |order|
    ensures Verdict(First(order, k), order[k], false) == Ok
  {
    var l := order[k];
    FirstHolds(order, k, l.name);
    assert ApartFromAll(libs, libs[l.name]);
    forall n | n in First(order, k) && n != l.name
      ensures Apart(First(order, k)[n], l)
    {
      FirstHolds(order, k, n);
      assert Apart(libs[n], libs[l.name]);
    }
  }

  lemma AllOfThem(libs: Libraries, order: seq<Library>)
    requires Wellformed(libs) && Enumerates(order, libs)
    ensures First(order, |order|) == libs
  {
    var all := First(order, |order|);
    forall n
      ensures n in all <==> n in libs
      ensures n in all && n in libs ==> all[n] == libs[n]
    {
      FirstHolds(order, |order|, n);
      if n in libs {
        var i :| 0 <= i < |order| && order[i] == libs[n];
        assert order[i].name in all;
      }
    }
  }

  lemma {:induction false} AddAllEnumerated(libs: Libraries, order: seq<Library>, k: nat)
    requires Wellformed(libs) && Enumerates(order, libs) && k <= |order|
    ensures AddAll(First(order, k), order[k..], false) == Some(libs)
    decreases |order| - k
  {
    if k == |order| {
      AllOfThem(libs, order);
    } else {
      NextAdmitted(libs, order, k);
      assert order[k..][0] == order[k] && order[k..][1..] == order[k + 1..];
      AddAllEnumerated(libs, order, k + 1);
    }
  }

  /** RESTORE refuses a dump in which one byte was replaced, and changes nothing. */
  lemma ChangedDumpRefused(libs: Libraries, compile: Compiler, payload: Bytes, i: nat, b: Byte, policy: Policy)
    requires Meaning(payload).Some? && i < |payload| && b != payload[i]
    ensures RestoreOf(libs, compile, payload[i := b], policy) == (BadPayload, libs)
  {
    ChangedIsRefused(payload, i, b);
  }

  /** RESTORE APPEND of a readable payload succeeds if and only if everything in it is new. */
  lemma AppendRestores(libs: Libraries, compile: Compiler, payload: Bytes, incoming: seq<Library>)
    requires Meaning(payload).Some? && CompileAll(compile, Meaning(payload).value) == Some(incoming)
    ensures RestoreOf(libs, compile, payload, Append).0 == Done <==> AllNew(libs, incoming)
    ensures !AllNew(libs, incoming) ==> RestoreOf(libs, compile, payload, Append).1 == libs
  {
    AppendMeans(libs, incoming);
  }

  lemma AddOne(libs: Libraries, l: Library)
    ensures AddAll(libs, [l], true) == if Verdict(libs, l, true) == Ok then Some(libs[l.name := l]) else None
    ensures FirstRefusal(libs, [l], true) == Verdict(libs, l, true)
  {
    assert [l][1..] == [];
    assert AddAll(libs[l.name := l], [], true) == Some(libs[l.name := l]);
  }

  /** RESTORE REPLACE of one library puts it into the registry unless a function belongs to another one. */
  lemma ReplaceRestores(libs: Libraries, compile: Compiler, payload: Bytes, l: Library)
    requires Meaning(payload).Some? && CompileAll(compile, Meaning(payload).value) == Some([l])
    ensures RestoreOf(libs, compile, payload, Replace)
         == if Clashes(libs, l) then (Refused(FunctionExists), libs) else (Done, libs[l.name := l])
  {
    VerdictMeans(libs, l);
    AddOne(libs, l);
  }

  lemma RestoreOfRead(libs: Libraries, order: seq<Library>, compile: Compiler, other: Libraries, payload: Bytes)
    requires Wellformed(libs) && Compiled(libs, compile) && Enumerates(order, libs)
    requires Meaning(payload) == Some(Sources(order))
    ensures RestoreOf(other, compile, payload, Flush) == (Done, libs)
  {
    SourcesCompile(order, compile);
    AddAllEnumerated(libs, order, 0);
    assert order[0..] == order;
  }

  // ---- how long a dump is ------------------------------------------------------------------------------

  /** What the libraries take up in a dump. */
  function Weight(order: seq<Library>): nat {
    if order == [] then 0 else Weight(order[..|order| - 1]) + 4 + |order[|order| - 1].code|
  }

  lemma {:induction false} BlobsLength(order: seq<Library>)
    ensures |Blobs(Sources(order))| == Weight(order)
  {
    if order != [] {
      var last := |order| - 1;
      BlobsLength(order[..last]);
      BlobsAppend(Sources(order[..last]), order[last].code);
      PutLength(4, |order[last].code| % TWO_32);
    }
  }

  lemma DumpLength(order: seq<Library>)
    ensures |Encode(Sources(order))| == 20 + Weight(order)
  {
    BlobsLength(order);
    PutLength(4, |Sources(order)| % TWO_32);
    PutLength(8, Checksum(Body(Sources(order))));
  }

  lemma {:induction false} WeightSplit(a: seq<Library>, b: seq<Library>)
    ensures Weight(a + b) == Weight(a) + Weight(b)
  {
    if b == [] {
      assert a + b == a;
    } else {
      WeightSplit(a, b[..|b| - 1]);
      assert (a + b)[..|a + b| - 1] == a + b[..|b| - 1];
    }
  }

  predicate NoRepeats(order: seq<Library>) {
    forall i, j :: 0 <= i < j < |order| ==> order[i] != order[j]
  }

  function Without(order: seq<Library>, i: nat): seq<Library>
    requires i < |order|
  {
    order[..i] + order[i + 1..]
  }

  lemma WithoutWeighs(order: seq<Library>, i: nat)
    requires i < |order|
    ensures Weight(order) == Weight(Without(order, i)) + 4 + |order[i].code|
  {
    var front, l, back := order[..i], order[i], order[i + 1..];
    assert order == (front + [l]) + back;
    WeightSplit(front + [l], back);
    WeightSplit(front, back);
    assert (front + [l])[..i] == front;
  }

  lemma WithoutHolds(order: seq<Library>, i: nat, l: Library)
    requires i < |order| && NoRepeats(order)
    ensures l in Without(order, i) <==> l in order && l != order[i]
  {
    var rest := Without(order, i);
    if k :| 0 <= k < |order| && order[k] == l && k != i {
      assert rest[if k < i then k else k - 1] == l;
    }
    if k :| 0 <= k < |rest| && rest[k] == l {
      assert order[if k < i then k else k + 1] == l;
    }
  }

  /** The order in which libraries are dumped does not change what they take up. */
  lemma {:induction false} SameWeight(a: seq<Library>, b: seq<Library>)
    requires NoRepeats(a) && NoRepeats(b) && forall l :: l in a <==> l in b
    ensures Weight(a) == Weight(b)
    decreases |a|
  {
    assert b != [] ==> b[0] in a;
    if a != [] {
      var last := |a| - 1;
      assert a[last] in b;
      var i :| 0 <= i < |b| && b[i] == a[last];
      forall l
        ensures l in a[..last] <==> l in Without(b, i)
      {
        WithoutHolds(b, i, l);
      }
      SameWeight(a[..last], Without(b, i));
      WithoutWeighs(b, i);
    }
  }

  // ---- when RESTORE undoes DUMP ---------------------------------------------------------------------------

  /** Adding to nothing without replacing: the libraries added are an enumeration of the outcome. */
  lemma {:induction false} AddedEnumerate(libs: Libraries, done: seq<Library>, incoming: seq<Library>, after: Libraries)
    requires Enumerates(done, libs) && AddAll(libs, incoming, false) == Some(after)
    ensures Enumerates(done + incoming, after)
    decreases |incoming|
  {
    if incoming == [] {
      assert done + incoming == done;
    } else {
      var l := incoming[0];
      EnumerateOneMore(libs, done, l);
      AddedEnumerate(libs[l.name := l], done + [l], incoming[1..], after);
      assert done + incoming == (done + [l]) + incoming[1..];
    }
  }

  lemma EnumerateOneMore(libs: Libraries, done: seq<Library>, l: Library)
    requires Enumerates(done, libs) && l.name !in libs
    ensures Enumerates(done + [l], libs[l.name := l])
  {
    var more, order := libs[l.name := l], done + [l];
    forall n | n in more
      ensures exists i :: 0 <= i < |order| && order[i] == more[n]
    {
      if n == l.name {
        assert order[|done|] == l;
      } else {
        var i :| 0 <= i < |done| && done[i] == libs[n];
        assert order[i] == libs[n];
      }
    }
  }

  lemma EnumerationsWeigh(libs: Libraries, a: seq<Library>, b: seq<Library>)
    requires Enumerates(a, libs) && Enumerates(b, libs)
    ensures Weight(a) == Weight(b)
  {
    forall l
      ensures l in a <==> l in b
    {
    }
    SameWeight(a, b);
  }

  lemma SourcesCompiled(compile: Compiler, sources: seq<Bytes>, incoming: seq<Library>)
    requires Compiles(compile) && CompileAll(compile, sources) == Some(incoming)
    ensures Sources(incoming) == sources
  {
    CompiledAll(compile, sources);
    SourcesOf(sources, incoming);
  }

  lemma {:induction false} SourcesOf(sources: seq<Bytes>, incoming: seq<Library>)
    requires |incoming| == |sources| && forall i :: 0 <= i < |incoming| ==> incoming[i].code == sources[i]
    ensures Sources(incoming) == sources
  {
    if sources != [] {
      var last := |sources| - 1;
      SourcesOf(sources[..last], incoming[..last]);
    }
  }

  /** What a payload that restores to `libs` went through. */
  lemma RestoredSteps(libs: Libraries, compile: Compiler, other: Libraries, payload: Bytes)
    returns (sources: seq<Bytes>, order: seq<Library>)
    requires RestoreOf(other, compile, payload, Flush) == (Done, libs)
    ensures Meaning(payload) == Some(sources) && CompileAll(compile, sources) == Some(order)
    ensures AddAll(map[], order, false) == Some(libs)
  {
    sources := Meaning(payload).value;
    order := CompileAll(compile, sources).value;
  }

  lemma WrittenAs(payload: Bytes, sources: seq<Bytes>)
    requires Meaning(payload) == Some(sources)
    ensures payload == Encode(sources)
  {
    DecodedEncodes(payload);
  }

  lemma AddedToNothing(incoming: seq<Library>, libs: Libraries)
    requires AddAll(map[], incoming, false) == Some(libs)
    ensures Enumerates(incoming, libs)
  {
    AddedEnumerate(map[], [], incoming, libs);
    assert [] + incoming == incoming;
  }

  /** A payload that restores to `libs` is as long as a dump of them. */
  lemma RestoredLength(libs: Libraries, order: seq<Library>, compile: Compiler, other: Libraries, payload: Bytes)
    requires Compiles(compile) && Enumerates(order, libs) && RestoreOf(other, compile, payload, Flush) == (Done, libs)
    ensures |payload| == |Encode(Sources(order))|
  {
    var sources, incoming := RestoredSteps(libs, compile, other, payload);
    AddedToNothing(incoming, libs);
    EnumerationsWeigh(libs, incoming, order);
    SourcesCompiled(compile, sources, incoming);
    WrittenAs(payload, sources);
    DumpLength(incoming);
    DumpLength(order);
  }

  lemma SentWhole(payload: Bytes)
    requires |payload| < TWO_32
    ensures Sent(payload) == payload
  {
    assert |payload| % TWO_32 == |payload|;
  }

  lemma ReadBack(order: seq<Library>, sources: seq<Bytes>)
    requires Weight(order) < TWO_32 && sources == Sources(order)
    ensures Meaning(Encode(sources)) == if |order| <= MAX_LIBRARIES then Some(sources) else None
  {
    LightFits(order);
    EncodedDecodes(sources);
  }

  /** The reply that carries a dump: its length is kept in 32 bits. */
  function Sent(payload: Bytes): Bytes { payload[..|payload| % TWO_32] }

  lemma {:induction false} LightFits(order: seq<Library>)
    requires Weight(order) < TWO_32
    ensures Fits(Sources(order)) && |Sources(order)| == |order| && |order| < TWO_32 && 4 * |order| <= Weight(order)
  {
    if order != [] {
      LightFits(order[..|order| - 1]);
    }
  }

  /**
   * RESTORE FLUSH of the reply to DUMP reproduces the dumped libraries in any registry if and only
   * if the dump holds at most 4096 libraries and is shorter than 2^32 bytes.
   */
  lemma RestoreOfDump(libs: Libraries, order: seq<Library>, compile: Compiler, other: Libraries)
    requires Wellformed(libs) && Compiles(compile) && Compiled(libs, compile) && Enumerates(order, libs)
    ensures var payload := Encode(Sources(order));
      && (RestoreOf(other, compile, Sent(payload), Flush) == (Done, libs)
          <==> |order| <= MAX_LIBRARIES && |payload| < TWO_32)
      && (|payload| < TWO_32 && |order| > MAX_LIBRARIES
          ==> RestoreOf(other, compile, Sent(payload), Flush) == (BadPayload, other))
  {
    var payload := Encode(Sources(order));
    DumpLength(order);
    if |payload| < TWO_32 {
      SentWhole(payload);
      ReadBack(order, Sources(order));
      if |order| <= MAX_LIBRARIES {
        RestoreOfRead(libs, order, compile, other, payload);
      }
    } else if RestoreOf(other, compile, Sent(payload), Flush) == (Done, libs) {
      RestoredLength(libs, order, compile, other, Sent(payload));
      assert false;
    }
  }
}
