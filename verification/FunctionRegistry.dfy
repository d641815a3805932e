/**
 * The process-wide FUNCTION library registry: libraries by name, function names unique across all
 * of them, and a generation that every visible change bumps once.
 */
module FunctionRegistry {
  import opened Options
  import opened Words

  datatype FunctionDef = FunctionDef(name: Bytes, flags: nat, description: Option<Bytes>)

  datatype Library = Library(name: Bytes, code: Bytes, functions: seq<FunctionDef>)

  type Libraries = map<Bytes, Library>

  datatype AddResult = Ok | LibraryExists | FunctionExists

  // ---- names ---------------------------------------------------------------------------------------

  predicate Declares(l: Library, f: Bytes) {
    exists i :: 0 <= i < |l.functions| && l.functions[i].name == f
  }

  /** No library registers a name twice: the registration call refuses it. */
  predicate Distinct(l: Library) {
    forall i, j :: 0 <= i < j < |l.functions| ==> l.functions[i].name != l.functions[j].name
  }

  /** No function of `b` is also a function of `a`. */
  predicate Apart(a: Library, b: Library) {
    forall j :: 0 <= j < |b.functions| ==> !Declares(a, b.functions[j].name)
  }

  predicate ApartFromAll(libs: Libraries, l: Library) {
    forall n :: n in libs && n != l.name ==> Apart(libs[n], l)
  }

  predicate Wellformed(libs: Libraries) {
    && (forall n :: n in libs ==> libs[n].name == n && Distinct(libs[n]))
    && (forall n :: n in libs ==> ApartFromAll(libs, libs[n]))
  }

  /** What adding a library has to answer. */
  function Verdict(libs: Libraries, l: Library, replace: bool): AddResult {
    if l.name in libs && !replace then LibraryExists else if ApartFromAll(libs, l) then Ok else FunctionExists
  }

  lemma ApartSymmetric(a: Library, b: Library)
    requires Apart(a, b)
    ensures Apart(b, a)
  {
    forall j | 0 <= j < |a.functions|
      ensures !Declares(b, a.functions[j].name)
    {
      if i :| 0 <= i < |b.functions| && b.functions[i].name == a.functions[j].name {
        assert Declares(a, b.functions[i].name);
      }
    }
  }

  /** An admitted library keeps function names unique. */
  lemma AdmittedWellformed(libs: Libraries, l: Library)
    requires Wellformed(libs) && Distinct(l) && ApartFromAll(libs, l)
    ensures Wellformed(libs[l.name := l])
  {
    var after := libs[l.name := l];
    forall n | n in after
      ensures ApartFromAll(after, after[n])
    {
      forall m | m in after && m != n
        ensures Apart(after[m], after[n])
      {
        if m == l.name {
          ApartSymmetric(libs[n], l);
        } else if n != l.name {
          assert ApartFromAll(libs, libs[n]);
        }
      }
    }
  }

  // ---- adding many -------------------------------------------------------------------------------------

  /** All of `incoming` added in order, or nothing. */
  function AddAll(libs: Libraries, incoming: seq<Library>, replace: bool): Option<Libraries>
    decreases |incoming|
  {
    if incoming == [] then Some(libs)
    else if Verdict(libs, incoming[0], replace) != Ok then None
    else AddAll(libs[incoming[0].name := incoming[0]], incoming[1..], replace)
  }

  /** The answer of the first library that is refused. */
  function FirstRefusal(libs: Libraries, incoming: seq<Library>, replace: bool): AddResult
    decreases |incoming|
  {
    if incoming == [] then Ok
    else if Verdict(libs, incoming[0], replace) != Ok then Verdict(libs, incoming[0], replace)
    else FirstRefusal(libs[incoming[0].name := incoming[0]], incoming[1..], replace)
  }

  // ---- what the answers mean -----------------------------------------------------------------------------

  /** Some function of `l` is also a function of a library with another name. */
  predicate Clashes(libs: Libraries, l: Library) {
    exists n, i, j :: n in libs && n != l.name && 0 <= i < |libs[n].functions| && 0 <= j < |l.functions|
                      && libs[n].functions[i].name == l.functions[j].name
  }

  lemma ClashesMeans(libs: Libraries, l: Library)
    ensures Clashes(libs, l) <==> !ApartFromAll(libs, l)
  {
    if !ApartFromAll(libs, l) {
      var n :| n in libs && n != l.name && !Apart(libs[n], l);
      var j :| 0 <= j < |l.functions| && Declares(libs[n], l.functions[j].name);
      var i :| 0 <= i < |libs[n].functions| && libs[n].functions[i].name == l.functions[j].name;
    }
    if n, i, j :| n in libs && n != l.name && 0 <= i < |libs[n].functions| && 0 <= j < |l.functions|
                  && libs[n].functions[i].name == l.functions[j].name {
      assert Declares(libs[n], l.functions[j].name);
      assert !Apart(libs[n], l);
    }
  }

  /**
   * With REPLACE a library is refused exactly when one of its functions belongs to another library;
   * without, also when its name is taken, and that is what is answered first.
   */
  lemma VerdictMeans(libs: Libraries, l: Library)
    ensures Verdict(libs, l, true) == if Clashes(libs, l) then FunctionExists else Ok
    ensures Verdict(libs, l, false)
         == if l.name in libs then LibraryExists else if Clashes(libs, l) then FunctionExists else Ok
  {
    ClashesMeans(libs, l);
  }

  /** New names, all different, and no function twice: neither with the registry nor among each other. */
  ghost predicate AllNew(libs: Libraries, incoming: seq<Library>) {
    && (forall i :: 0 <= i < |incoming| ==> incoming[i].name !in libs && !Clashes(libs, incoming[i]))
    && (forall i, j :: 0 <= i < j < |incoming| ==>
          incoming[i].name != incoming[j].name && Apart(incoming[i], incoming[j]))
  }

  /** Without REPLACE a sequence of libraries is added if and only if all of it is new. */
  lemma {:induction false} AppendMeans(libs: Libraries, incoming: seq<Library>)
    ensures AddAll(libs, incoming, false).Some? <==> AllNew(libs, incoming)
    decreases |incoming|
  {
    if incoming != [] {
      var l, rest := incoming[0], incoming[1..];
      VerdictMeans(libs, l);
      if Verdict(libs, l, false) == Ok {
        AppendMeans(libs[l.name := l], rest);
        AllNewStep(libs, l, rest);
        assert incoming == [l] + rest;
      }
    }
  }

  /** One new library, apart from another: what is new after it was new before and is apart from it. */
  ghost predicate NewAfter(libs: Libraries, l: Library, other: Library) {
    other.name !in libs && !Clashes(libs, other) && l.name != other.name && Apart(l, other)
  }

  lemma NewMore(libs: Libraries, l: Library, other: Library)
    requires l.name !in libs
    ensures var more := libs[l.name := l];
      other.name !in more && !Clashes(more, other) <==> NewAfter(libs, l, other)
  {
    var more := libs[l.name := l];
    ClashesMeans(more, other);
    ClashesMeans(libs, other);
    if NewAfter(libs, l, other) {
      forall n | n in more && n != other.name
        ensures Apart(more[n], other)
      {
      }
    } else if other.name !in more && ApartFromAll(more, other) {
      assert Apart(more[l.name], other);
      forall n | n in libs && n != other.name
        ensures Apart(libs[n], other)
      {
        assert Apart(more[n], other);
      }
      assert false;
    }
  }

  lemma AllNewStep(libs: Libraries, l: Library, rest: seq<Library>)
    requires l.name !in libs && !Clashes(libs, l)
    ensures AllNew(libs, [l] + rest) <==> AllNew(libs[l.name := l], rest)
  {
    forall i | 0 <= i < |rest|
      ensures rest[i].name !in libs[l.name := l] && !Clashes(libs[l.name := l], rest[i]) <==> NewAfter(libs, l, rest[i])
    {
      NewMore(libs, l, rest[i]);
    }
    var all := [l] + rest;
    if AllNew(libs[l.name := l], rest) {
      AllNewBack(libs, l, rest, all);
    }
    if AllNew(libs, all) {
      AllNewOn(libs, l, rest, all);
    }
  }

  lemma AllNewBack(libs: Libraries, l: Library, rest: seq<Library>, all: seq<Library>)
    requires l.name !in libs && !Clashes(libs, l) && all == [l] + rest
    requires forall i :: 0 <= i < |rest| ==> NewAfter(libs, l, rest[i])
    requires forall i, j :: 0 <= i < j < |rest| ==> rest[i].name != rest[j].name && Apart(rest[i], rest[j])
    ensures AllNew(libs, all)
  {
    forall i | 0 <= i < |all|
      ensures all[i].name !in libs && !Clashes(libs, all[i])
    {
      assert i > 0 ==> NewAfter(libs, l, rest[i - 1]);
    }
    forall i, j | 0 <= i < j < |all|
      ensures all[i].name != all[j].name && Apart(all[i], all[j])
    {
      assert all[j] == rest[j - 1] && NewAfter(libs, l, rest[j - 1]);
      assert i > 0 ==> all[i] == rest[i - 1];
    }
  }

  lemma AllNewOn(libs: Libraries, l: Library, rest: seq<Library>, all: seq<Library>)
    requires all == [l] + rest && AllNew(libs, all)
    ensures forall i :: 0 <= i < |rest| ==> NewAfter(libs, l, rest[i])
    ensures forall i, j :: 0 <= i < j < |rest| ==> rest[i].name != rest[j].name && Apart(rest[i], rest[j])
  {
    forall i | 0 <= i < |rest|
      ensures NewAfter(libs, l, rest[i])
    {
      assert all[i + 1] == rest[i] && all[0] == l;
    }
    forall i, j | 0 <= i < j < |rest|
      ensures rest[i].name != rest[j].name && Apart(rest[i], rest[j])
    {
      assert all[i + 1] == rest[i] && all[j + 1] == rest[j];
    }
  }

  // ---- enumerations and the table a thread builds --------------------------------------------------------

  /** `order` lists every library once. */
  predicate Enumerates(order: seq<Library>, libs: Libraries) {
    && (forall i :: 0 <= i < |order| ==> order[i].name in libs && libs[order[i].name] == order[i])
    && (forall i, j :: 0 <= i < j < |order| ==> order[i].name != order[j].name)
    && (forall n :: n in libs ==> libs[n] in order)
  }

  /** A registered function: the library source that defines it and its declaration. */
  datatype Callback = Callback(code: Bytes, def: FunctionDef)

  type Table = map<Bytes, Callback>

  /** Running the first `k` registrations of a library. */
  function Register(table: Table, l: Library, k: nat): Table
    requires k <= |l.functions|
  {
    if k == 0 then table
    else Register(table, l, k - 1)[l.functions[k - 1].name := Callback(l.code, l.functions[k - 1])]
  }

  function TableOf(order: seq<Library>): Table {
    if order == [] then map[]
    else
      var l := order[|order| - 1];
      Register(TableOf(order[..|order| - 1]), l, |l.functions|)
  }

  /** `c` is what the libraries say about `f`. */
  ghost predicate Serves(libs: Libraries, f: Bytes, c: Callback) {
    exists n :: n in libs && Defines(libs[n], f, c)
  }

  ghost predicate Defines(l: Library, f: Bytes, c: Callback) {
    exists i :: 0 <= i < |l.functions| && l.functions[i].name == f && c == Callback(l.code, l.functions[i])
  }

  lemma {:induction false} RegisterLookup(table: Table, l: Library, k: nat, f: Bytes)
    requires Distinct(l) && k <= |l.functions|
    ensures forall i :: 0 <= i < k && l.functions[i].name == f ==>
              f in Register(table, l, k) && Register(table, l, k)[f] == Callback(l.code, l.functions[i])
    ensures (forall i :: 0 <= i < k ==> l.functions[i].name != f) ==>
              (f in Register(table, l, k) <==> f in table) && (f in table ==> Register(table, l, k)[f] == table[f])
  {
    if k != 0 {
      RegisterLookup(table, l, k - 1, f);
    }
  }

  /** Registering a library adds its own functions and leaves the others alone. */
  lemma RegisterAll(table: Table, l: Library, f: Bytes)
    requires Distinct(l)
    ensures var after := Register(table, l, |l.functions|);
      if Declares(l, f) then f in after && Defines(l, f, after[f])
      else (f in after <==> f in table) && (f in table ==> after[f] == table[f])
  {
    RegisterLookup(table, l, |l.functions|, f);
  }

  /** In an enumeration no later library overwrites an earlier one's function. */
  lemma {:induction false} TableServes(libs: Libraries, order: seq<Library>, f: Bytes)
    requires Wellformed(libs)
    requires forall i :: 0 <= i < |order| ==> order[i].name in libs && libs[order[i].name] == order[i]
    ensures f in TableOf(order) ==> Serves(libs, f, TableOf(order)[f])
    ensures forall i :: 0 <= i < |order| && Declares(order[i], f) ==> f in TableOf(order)
  {
    if order != [] {
      var last := |order| - 1;
      TableServes(libs, order[..last], f);
      RegisterAll(TableOf(order[..last]), order[last], f);
      assert forall i :: 0 <= i < last ==> order[i] == order[..last][i];
    }
  }

  /** Two answers about one function are the same answer. */
  lemma ServesOne(libs: Libraries, f: Bytes, a: Callback, b: Callback)
    requires Wellformed(libs) && Serves(libs, f, a) && Serves(libs, f, b)
    ensures a == b
  {
    var m :| m in libs && Defines(libs[m], f, a);
    var n :| n in libs && Defines(libs[n], f, b);
    assert Declares(libs[m], f) && Declares(libs[n], f);
    assert ApartFromAll(libs, libs[n]);
  }

  /** The table is exactly what the libraries say, whatever the order. */
  lemma TableIsServed(libs: Libraries, order: seq<Library>, f: Bytes, c: Callback)
    requires Wellformed(libs) && Enumerates(order, libs)
    ensures (f in TableOf(order) && TableOf(order)[f] == c) <==> Serves(libs, f, c)
  {
    TableServes(libs, order, f);
    if Serves(libs, f, c) {
      var n :| n in libs && Defines(libs[n], f, c);
      var i :| 0 <= i < |order| && order[i] == libs[n];
      assert Declares(order[i], f);
      ServesOne(libs, f, c, TableOf(order)[f]);
    }
  }

  /** Hence the order in which a thread loads the libraries does not matter. */
  lemma TableOrderFree(libs: Libraries, a: seq<Library>, b: seq<Library>)
    requires Wellformed(libs) && Enumerates(a, libs) && Enumerates(b, libs)
    ensures TableOf(a) == TableOf(b)
  {
    forall f | f in TableOf(a)
      ensures f in TableOf(b) && TableOf(b)[f] == TableOf(a)[f]
    {
      TableIsServed(libs, a, f, TableOf(a)[f]);
      TableIsServed(libs, b, f, TableOf(a)[f]);
    }
    forall f | f in TableOf(b)
      ensures f in TableOf(a)
    {
      TableIsServed(libs, b, f, TableOf(b)[f]);
      TableIsServed(libs, a, f, TableOf(b)[f]);
    }
  }

  // ---- the registry ------------------------------------------------------------------------------------

  /** A function name declared by both, if there is one. */
  method SharedName(theirs: Library, mine: Library) returns (shared: Option<Bytes>)
    ensures shared.None? <==> Apart(theirs, mine)
    ensures shared.Some? ==> Declares(theirs, shared.value) && Declares(mine, shared.value)
  {
    for i := 0 to |theirs.functions|
      invariant forall k, j :: 0 <= k < i && 0 <= j < |mine.functions| ==>
                  theirs.functions[k].name != mine.functions[j].name
    {
      for j := 0 to |mine.functions|
        invariant forall k :: 0 <= k < j ==> theirs.functions[i].name != mine.functions[k].name
      {
        if theirs.functions[i].name == mine.functions[j].name {
          assert Declares(theirs, mine.functions[j].name);
          return Some(mine.functions[j].name);
        }
      }
    }
    return None;
  }

  class Registry {
    var libraries: Libraries
    var generation: nat

    ghost predicate Valid()
      reads this
    {
      Wellformed(libraries)
    }

    constructor ()
      ensures Valid() && libraries == map[] && generation == 0
    {
      libraries, generation := map[], 0;
    }

    /** Looks for a function of `library` in any other library. */
    method Collision(library: Library) returns (shared: Option<Bytes>)
      ensures shared.None? <==> ApartFromAll(libraries, library)
      ensures shared.Some? ==>
                Declares(library, shared.value)
                && exists n :: n in libraries && n != library.name && Declares(libraries[n], shared.value)
    {
      var names := libraries.Keys;
      while names != {}
        invariant names <= libraries.Keys
        invariant forall n :: n in libraries && n !in names && n != library.name ==> Apart(libraries[n], library)
        decreases names
      {
        var n :| n in names;
        if n != library.name {
          shared := SharedName(libraries[n], library);
          if shared.Some? {
            return;
          }
        }
        names := names - {n};
      }
      shared := None;
    }

    method AddLocked(library: Library, replace: bool, deferBump: bool) returns (result: AddResult, detail: Bytes)
      requires Valid() && Distinct(library)
      modifies this
      ensures Valid() && result == Verdict(old(libraries), library, replace)
      ensures result == Ok ==> libraries == old(libraries)[library.name := library]
                               && generation == old(generation) + (if deferBump then 0 else 1)
      ensures result != Ok ==> libraries == old(libraries) && generation == old(generation)
      ensures result == LibraryExists ==> detail == library.name
      ensures result == FunctionExists ==>
                Declares(library, detail)
                && exists n :: n in libraries && n != library.name && Declares(libraries[n], detail)
    {
      detail := [];
      if library.name in libraries && !replace {
        return LibraryExists, library.name;
      }
      var shared := Collision(library);
      if shared.Some? {
        return FunctionExists, shared.value;
      }
      AdmittedWellformed(libraries, library);
      libraries := libraries[library.name := library];
      if !deferBump {
        generation := generation + 1;
      }
      result := Ok;
    }

    method Remove(name: Bytes) returns (found: bool)
      requires Valid()
      modifies this
      ensures Valid() && found == (name in old(libraries)) && libraries == old(libraries) - {name}
      ensures generation == old(generation) + (if found then 1 else 0)
    {
      if name !in libraries {
        assert libraries - {name} == libraries;
        return false;
      }
      RemovedWellformed(libraries, name);
      libraries, generation := libraries - {name}, generation + 1;
      found := true;
    }

    static lemma RemovedWellformed(libs: Libraries, name: Bytes)
      requires Wellformed(libs)
      ensures Wellformed(libs - {name})
    {
      var after := libs - {name};
      forall n | n in after
        ensures ApartFromAll(after, after[n])
      {
        assert ApartFromAll(libs, libs[n]);
      }
    }

    method Flush()
      requires Valid()
      modifies this
      ensures Valid() && libraries == map[] && generation == old(generation) + 1
    {
      libraries, generation := map[], generation + 1;
    }

    /** FUNCTION RESTORE: every library lands and the generation moves by one, or nothing changes. */
    method ReplaceAll(incoming: seq<Library>, flushFirst: bool, replace: bool) returns (result: AddResult)
      requires Valid() && forall i :: 0 <= i < |incoming| ==> Distinct(incoming[i])
      modifies this
      ensures Valid()
      ensures var start := if flushFirst then map[] else old(libraries);
        && result == FirstRefusal(start, incoming, replace)
        && match AddAll(start, incoming, replace)
           case Some(libs) => result == Ok && libraries == libs && generation == old(generation) + 1
           case None => result != Ok && libraries == old(libraries) && generation == old(generation)
    {
      var saved := libraries;
      if flushFirst {
        libraries := map[];
      }
      ghost var start := libraries;
      for i := 0 to |incoming|
        invariant Valid() && generation == old(generation)
        invariant AddAll(libraries, incoming[i..], replace) == AddAll(start, incoming, replace)
        invariant FirstRefusal(libraries, incoming[i..], replace) == FirstRefusal(start, incoming, replace)
      {
        assert incoming[i..][0] == incoming[i] && incoming[i..][1..] == incoming[i + 1..];
        var detail;
        result, detail := AddLocked(incoming[i], replace, true);
        if result != Ok {
          libraries := saved;
          return;
        }
      }
      generation := generation + 1;
      result := Ok;
    }

    /** A copy of every library and the generation it was taken at. */
    method Snapshot() returns (out: seq<Library>, stamp: nat)
      requires Valid()
      ensures Enumerates(out, libraries) && stamp == generation
    {
      out := [];
      var names := libraries.Keys;
      while names != {}
        invariant names <= libraries.Keys
        invariant forall i :: 0 <= i < |out| ==>
                    out[i].name in libraries && libraries[out[i].name] == out[i] && out[i].name !in names
        invariant forall i, j :: 0 <= i < j < |out| ==> out[i].name != out[j].name
        invariant forall n :: n in libraries && n !in names ==> libraries[n] in out
        decreases names
      {
        var n :| n in names;
        out := out + [libraries[n]];
        names := names - {n};
      }
      stamp := generation;
    }
  }
}
