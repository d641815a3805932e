/**
 * Building the command registry at boot and looking commands up in it, including the shortcut that
 * compares a whole verb as one packed word.
 */
module CommandRegistry {
  import opened CommandIndex

  // ---- packed verbs ------------------------------------------------------------------------------------

  /** Four bytes as one little-endian word, every byte with bit 0x20 set. */
  function Key(a: bv8, b: bv8, c: bv8, d: bv8): bv32 {
    ((a as bv32) | ((b as bv32) << 8) | ((c as bv32) << 16) | ((d as bv32) << 24)) | 0x2020_2020
  }

  predicate Letter(c: bv8) { 0x41 <= c <= 0x5A }

  lemma KeyByte0(a: bv8, b: bv8, c: bv8, d: bv8, p: bv8, q: bv8, r: bv8, s: bv8)
    ensures Key(a, b, c, d) == Key(p, q, r, s) ==> (a | 0x20) == (p | 0x20)
  {
  }

  lemma KeyByte1(a: bv8, b: bv8, c: bv8, d: bv8, p: bv8, q: bv8, r: bv8, s: bv8)
    ensures Key(a, b, c, d) == Key(p, q, r, s) ==> (b | 0x20) == (q | 0x20)
  {
  }

  lemma KeyByte2(a: bv8, b: bv8, c: bv8, d: bv8, p: bv8, q: bv8, r: bv8, s: bv8)
    ensures Key(a, b, c, d) == Key(p, q, r, s) ==> (c | 0x20) == (r | 0x20)
  {
  }

  lemma KeyByte3(a: bv8, b: bv8, c: bv8, d: bv8, p: bv8, q: bv8, r: bv8, s: bv8)
    ensures Key(a, b, c, d) == Key(p, q, r, s) ==> (d | 0x20) == (s | 0x20)
  {
  }

  lemma KeyOfBytes(a: bv8, b: bv8, c: bv8, d: bv8, p: bv8, q: bv8, r: bv8, s: bv8)
    ensures (a | 0x20) == (p | 0x20) && (b | 0x20) == (q | 0x20) && (c | 0x20) == (r | 0x20) && (d | 0x20) == (s | 0x20)
       ==> Key(a, b, c, d) == Key(p, q, r, s)
  {
  }

  /** Two keys are equal when their bytes are, up to that bit. */
  lemma KeyEqual(a: bv8, b: bv8, c: bv8, d: bv8, p: bv8, q: bv8, r: bv8, s: bv8)
    ensures Key(a, b, c, d) == Key(p, q, r, s)
       <==> (a | 0x20) == (p | 0x20) && (b | 0x20) == (q | 0x20) && (c | 0x20) == (r | 0x20) && (d | 0x20) == (s | 0x20)
  {
    KeyByte0(a, b, c, d, p, q, r, s);
    KeyByte1(a, b, c, d, p, q, r, s);
    KeyByte2(a, b, c, d, p, q, r, s);
    KeyByte3(a, b, c, d, p, q, r, s);
    KeyOfBytes(a, b, c, d, p, q, r, s);
  }

  /** Setting bit 0x20 identifies a letter with its two spellings and with nothing else. */
  lemma LetterSpellings(c: bv8, letter: bv8)
    requires Letter(letter)
    ensures (c | 0x20) == (letter | 0x20) <==> Upper(c) == letter
    ensures Upper(letter) == letter
  {
  }

  predicate Verb3(verb: Name) { |verb| == 3 && Letter(verb[0]) && Letter(verb[1]) && Letter(verb[2]) }

  predicate Verb4(verb: Name) {
    |verb| == 4 && Letter(verb[0]) && Letter(verb[1]) && Letter(verb[2]) && Letter(verb[3])
  }

  lemma KeySpells(a: bv8, b: bv8, c: bv8, d: bv8, p: bv8, q: bv8, r: bv8, s: bv8)
    requires Letter(p) && Letter(q) && Letter(r) && Letter(s)
    ensures Key(a, b, c, d) == Key(p, q, r, s)
       <==> Upper(a) == Upper(p) && Upper(b) == Upper(q) && Upper(c) == Upper(r) && Upper(d) == Upper(s)
  {
    KeyEqual(a, b, c, d, p, q, r, s);
    LetterSpellings(a, p);
    LetterSpellings(b, q);
    LetterSpellings(c, r);
    LetterSpellings(d, s);
  }

  /** A key of three bytes has 0x20 on top, on either side. */
  lemma ShortKeySpells(a: bv8, b: bv8, c: bv8, p: bv8, q: bv8, r: bv8)
    requires Letter(p) && Letter(q) && Letter(r)
    ensures Key(a, b, c, 0) == Key(p, q, r, 0x20)
       <==> Upper(a) == Upper(p) && Upper(b) == Upper(q) && Upper(c) == Upper(r)
  {
    KeyEqual(a, b, c, 0, p, q, r, 0x20);
    LetterSpellings(a, p);
    LetterSpellings(b, q);
    LetterSpellings(c, r);
  }

  function Key3(name: Name): bv32
    requires |name| == 3
  {
    Key(name[0], name[1], name[2], 0)
  }

  function Key4(name: Name): bv32
    requires |name| == 4
  {
    Key(name[0], name[1], name[2], name[3])
  }

  /** Three-byte keys of verbs are made with a blank on top. */
  function VerbKey3(verb: Name): bv32
    requires |verb| == 3
  {
    Key(verb[0], verb[1], verb[2], 0x20)
  }

  lemma SameName3(name: Name, verb: Name)
    requires |name| == 3 && |verb| == 3
    ensures SameName(name, verb)
       <==> Upper(name[0]) == Upper(verb[0]) && Upper(name[1]) == Upper(verb[1]) && Upper(name[2]) == Upper(verb[2])
  {
  }

  lemma SameName4(name: Name, verb: Name)
    requires |name| == 4 && |verb| == 4
    ensures SameName(name, verb)
       <==> Upper(name[0]) == Upper(verb[0]) && Upper(name[1]) == Upper(verb[1]) && Upper(name[2]) == Upper(verb[2])
            && Upper(name[3]) == Upper(verb[3])
  {
  }

  lemma Key3Exact(name: Name, verb: Name)
    requires |name| == 3 && Verb3(verb)
    ensures Key3(name) == VerbKey3(verb) <==> SameName(name, verb)
  {
    SameName3(name, verb);
    ShortKeySpells(name[0], name[1], name[2], verb[0], verb[1], verb[2]);
  }

  lemma Key4Exact(name: Name, verb: Name)
    requires |name| == 4 && Verb4(verb)
    ensures Key4(name) == Key4(verb) <==> SameName(name, verb)
  {
    SameName4(name, verb);
    KeySpells(name[0], name[1], name[2], name[3], verb[0], verb[1], verb[2], verb[3]);
  }

  const GET: Name := [0x47, 0x45, 0x54]
  const SET: Name := [0x53, 0x45, 0x54]
  const DEL: Name := [0x44, 0x45, 0x4C]
  const MGET: Name := [0x4D, 0x47, 0x45, 0x54]
  const MSET: Name := [0x4D, 0x53, 0x45, 0x54]
  const INCR: Name := [0x49, 0x4E, 0x43, 0x52]

  // ---- the hash ----------------------------------------------------------------------------------------

  function Uppers(s: Name): Name { seq(|s|, i requires 0 <= i < |s| => Upper(s[i])) }

  /** command_hash reads the upper-cased bytes and nothing else; `mix` is its arithmetic. */
  function Hash(mix: Name -> nat): Name -> nat { (s: Name) => mix(Uppers(s)) }

  lemma HashCaseBlind(mix: Name -> nat)
    ensures CaseBlind(Hash(mix))
  {
    forall a, b | SameName(a, b)
      ensures Hash(mix)(a) == Hash(mix)(b)
    {
      assert Uppers(a) == Uppers(b);
    }
  }

  // ---- boot --------------------------------------------------------------------------------------------

  /** A row of the command families; `valid` is the outcome of the checks on its other columns. */
  datatype Row = Row(name: Name, valid: bool)

  function Names(rows: seq<Row>): seq<Name> { seq(|rows|, i requires 0 <= i < |rows| => rows[i].name) }

  /** Among the first `n` rows, the last whose name is exactly this verb. */
  function Exactly(names: seq<Name>, n: nat, verb: Name): int
    requires n <= |names|
  {
    if n == 0 then -1 else if names[n - 1] == verb then n - 1 else Exactly(names, n - 1, verb)
  }

  lemma {:induction false} ExactlyFinds(names: seq<Name>, n: nat, verb: Name)
    requires n <= |names|
    ensures var r := Exactly(names, n, verb);
      && -1 <= r < n && (r >= 0 ==> names[r] == verb)
      && (r == -1 ==> forall i :: 0 <= i < n ==> names[i] != verb)
  {
    if n != 0 {
      ExactlyFinds(names, n - 1, verb);
    }
  }

  /** A row that is this verb in another case is refused. */
  predicate Canonical(names: seq<Name>, verb: Name) {
    forall i :: 0 <= i < |names| && SameName(verb, names[i]) ==> names[i] == verb
  }

  /** The shortcut for a verb agrees with the table exactly when the verb is spelled canonically. */
  lemma HotAgrees(names: seq<Name>, verb: Name)
    requires NoTwins(names, |names|)
    ensures Exactly(names, |names|, verb) == Scan(names, |names|, verb) <==> Canonical(names, verb)
  {
    var exact := Exactly(names, |names|, verb);
    ExactlyFinds(names, |names|, verb);
    if exact >= 0 {
      ScanFinds(names, |names|, verb, exact);
      forall i | 0 <= i < |names| && SameName(verb, names[i])
        ensures i == exact
      {
        ScanFinds(names, |names|, verb, i);
      }
    } else {
      if NoRow(names, |names|, verb) {
        ScanFinds(names, |names|, verb, -1);
      } else {
        var i :| 0 <= i < |names| && SameName(verb, names[i]);
        ScanFinds(names, |names|, verb, i);
      }
    }
  }

  /**
   * When boot succeeds. `categories` are the names found in the generated category table, which has
   * `tableRows` rows, and `metadata` is the outcome of building the metadata index.
   */
  predicate CanBoot(rows: seq<Row>, categories: set<Name>, tableRows: nat, metadata: bool) {
    var names := Names(rows);
    && |rows| <= 255 && Categorised(names, categories) && |rows| == tableRows && metadata
    && Sound(rows, |rows|) && NoTwins(names, |names|) && AllCanonical(names)
  }

  /** Every name has a row in the generated category table. */
  predicate Categorised(names: seq<Name>, categories: set<Name>) {
    forall i :: 0 <= i < |names| ==> names[i] in categories
  }

  predicate AllCanonical(names: seq<Name>) {
    && Canonical(names, GET) && Canonical(names, SET) && Canonical(names, DEL)
    && Canonical(names, MGET) && Canonical(names, MSET) && Canonical(names, INCR)
  }

  datatype Hot = Hot(get: int, set_: int, del: int, mget: int, mset: int, incr: int)

  function HotAfter(names: seq<Name>, n: nat): Hot
    requires n <= |names|
  {
    Hot(Exactly(names, n, GET), Exactly(names, n, SET), Exactly(names, n, DEL),
        Exactly(names, n, MGET), Exactly(names, n, MSET), Exactly(names, n, INCR))
  }

  /** What the table says about the six verbs. */
  function HotRows(names: seq<Name>): Hot {
    Hot(Scan(names, |names|, GET), Scan(names, |names|, SET), Scan(names, |names|, DEL),
        Scan(names, |names|, MGET), Scan(names, |names|, MSET), Scan(names, |names|, INCR))
  }

  /** The first matching verb takes the row; the verbs differ, so the order does not matter. */
  method NoteHot(names: seq<Name>, n: nat, hot: Hot) returns (more: Hot)
    requires n < |names| && hot == HotAfter(names, n)
    ensures more == HotAfter(names, n + 1)
  {
    more := hot;
    var name := names[n];
    if name == GET {
      more := hot.(get := n);
    } else if name == SET {
      more := hot.(set_ := n);
    } else if name == DEL {
      more := hot.(del := n);
    } else if name == MGET {
      more := hot.(mget := n);
    } else if name == MSET {
      more := hot.(mset := n);
    } else if name == INCR {
      more := hot.(incr := n);
    }
  }

  method Capacity(total: nat) returns (cap: nat)
    ensures cap >= 8 && cap >= 2 * total && cap <= 8 + 4 * total
  {
    cap := 8;
    while cap < total * 2
      invariant 8 <= cap <= 8 + 4 * total
    {
      cap := cap * 2;
    }
  }

  class Registry {
    const mix: Name -> nat
    var names: seq<Name>
    var slots: array<int>
    var hot: Hot
    var built: bool

    /** What a successful boot leaves. */
    ghost predicate Valid()
      reads this, slots
    {
      && (forall i :: 0 <= i < |names| ==> names[i] != [])
      && Indexed(slots[..], names, |names|, Hash(mix))
      && hot == HotRows(names)
    }

    constructor (arithmetic: Name -> nat)
      ensures !built && mix == arithmetic && hot == Hot(-1, -1, -1, -1, -1, -1) && fresh(slots)
    {
      mix := arithmetic;
      names, slots, built := [], new int[0], false;
      hot := Hot(-1, -1, -1, -1, -1, -1);
    }

    method Boot(rows: seq<Row>, categories: set<Name>, tableRows: nat, metadata: bool) returns (ok: bool)
      requires built ==> Valid()
      modifies this
      ensures ok == (old(built) || CanBoot(rows, categories, tableRows, metadata)) && built == ok
      ensures ok ==> Valid() && names == if old(built) then old(names) else Names(rows)
    {
      if built {
        return true;
      }
      if |rows| > 255 {
        return false;
      }
      ok := AllCategorised(Names(rows), categories);
      if !ok || |rows| != tableRows || !metadata {
        return false;
      }
      ok := Build(rows);
    }

    /** Fills the table and compares the six verbs with it. */
    method Build(rows: seq<Row>) returns (ok: bool)
      requires !built
      modifies this
      ensures ok == (Sound(rows, |rows|) && NoTwins(Names(rows), |rows|) && AllCanonical(Names(rows))) && built == ok
      ensures ok ==> Valid() && names == Names(rows)
    {
      var cap := Capacity(|rows|);
      var table := new int[cap](_ => -1);
      names := Names(rows);
      HashCaseBlind(mix);
      var indexed, verbs := IndexRows(table, names, rows, Hash(mix));
      if !indexed {
        return false;
      }
      slots, hot := table, verbs;
      ok := CheckHot(table, names, Hash(mix), verbs);
      built := ok;
    }

    /** The probe of the table. */
    method LookupRegistry(name: Name) returns (row: int)
      requires built ==> Valid()
      ensures row == if built then Scan(names, |names|, name) else -1
    {
      if !built {
        return -1;
      }
      if |name| == 0 {
        ScanFinds(names, |names|, name, -1);
        return -1;
      }
      HashCaseBlind(mix);
      row := Find(slots, names, |names|, Hash(mix), name);
    }

    /** The shortcut for six verbs, and the table for everything else. */
    method Lookup(name: Name) returns (row: int)
      requires if built then Valid() else hot == Hot(-1, -1, -1, -1, -1, -1)
      ensures row == if built then Scan(names, |names|, name) else -1
    {
      if |name| == 3 {
        Key3Exact(name, GET);
        Key3Exact(name, SET);
        Key3Exact(name, DEL);
        var key := Key3(name);
        if key == VerbKey3(GET) {
          SameRow(names, name, GET);
          return hot.get;
        }
        if key == VerbKey3(SET) {
          SameRow(names, name, SET);
          return hot.set_;
        }
        if key == VerbKey3(DEL) {
          SameRow(names, name, DEL);
          return hot.del;
        }
      } else if |name| == 4 {
        Key4Exact(name, MGET);
        Key4Exact(name, MSET);
        Key4Exact(name, INCR);
        var key := Key4(name);
        if key == Key4(MGET) {
          SameRow(names, name, MGET);
          return hot.mget;
        }
        if key == Key4(MSET) {
          SameRow(names, name, MSET);
          return hot.mset;
        }
        if key == Key4(INCR) {
          SameRow(names, name, INCR);
          return hot.incr;
        }
      }
      row := LookupRegistry(name);
    }
  }

  /** Two spellings of one name find the same row. */
  lemma SameRow(names: seq<Name>, name: Name, verb: Name)
    requires SameName(name, verb)
    ensures Scan(names, |names|, name) == Scan(names, |names|, verb)
  {
    SameScan(names, |names|, name, verb);
  }

  lemma {:induction false} SameScan(names: seq<Name>, n: nat, name: Name, verb: Name)
    requires n <= |names| && SameName(name, verb)
    ensures Scan(names, n, name) == Scan(names, n, verb)
  {
    if n != 0 {
      SameScan(names, n - 1, name, verb);
      SameAs(name, verb, names[n - 1]);
    }
  }

  lemma SameAs(a: Name, b: Name, c: Name)
    requires SameName(a, b)
    ensures SameName(a, c) == SameName(b, c)
  {
  }

  method AllCategorised(names: seq<Name>, categories: set<Name>) returns (ok: bool)
    ensures ok == Categorised(names, categories)
  {
    for n := 0 to |names|
      invariant forall i :: 0 <= i < n ==> names[i] in categories
    {
      if names[n] !in categories {
        return false;
      }
    }
    ok := true;
  }

  /** Indexes every row and notes the six verbs on the way. */
  method IndexRows(slots: array<int>, names: seq<Name>, rows: seq<Row>, hash: Name -> nat) returns (ok: bool, hot: Hot)
    requires names == Names(rows) && slots.Length >= 8 && slots.Length >= 2 * |rows| && CaseBlind(hash)
    requires forall p :: 0 <= p < slots.Length ==> slots[p] == -1
    modifies slots
    ensures ok == (Sound(rows, |rows|) && NoTwins(names, |names|))
    ensures ok ==> Indexed(slots[..], names, |names|, hash) && hot == HotAfter(names, |names|)
  {
    hot := Hot(-1, -1, -1, -1, -1, -1);
    for n := 0 to |rows|
      invariant Indexed(slots[..], names, n, hash) && hot == HotAfter(names, n) && Sound(rows, n)
    {
      hot := NoteHot(names, n, hot);
      ok := IndexRow(slots, names, rows, n, hash);
      if !ok {
        return;
      }
    }
    ok := true;
  }

  /** The first `n` rows have a name and pass the checks on their other columns. */
  predicate Sound(rows: seq<Row>, n: nat)
    requires n <= |rows|
  {
    forall i :: 0 <= i < n ==> rows[i].valid && rows[i].name != []
  }

  method IndexRow(slots: array<int>, names: seq<Name>, rows: seq<Row>, n: nat, hash: Name -> nat) returns (ok: bool)
    requires names == Names(rows) && n < |rows| && 2 * |rows| <= slots.Length && CaseBlind(hash)
    requires Indexed(slots[..], names, n, hash) && Sound(rows, n)
    modifies slots
    ensures ok ==> Indexed(slots[..], names, n + 1, hash) && Sound(rows, n + 1)
    ensures !ok ==> !Sound(rows, |rows|) || !NoTwins(names, |names|)
  {
    assert names[n] == rows[n].name;
    if names[n] == [] || !rows[n].valid {
      return false;
    }
    ok := Insert(slots, names, n, hash);
    if !ok {
      Twin(names, n);
    }
  }

  lemma Twin(names: seq<Name>, n: nat)
    requires n < |names| && !NoRow(names, n, names[n])
    ensures !NoTwins(names, |names|)
  {
    var i :| 0 <= i < n && SameName(names[n], names[i]);
  }

  /** Each of the six verbs is looked up both ways. */
  method CheckHot(slots: array<int>, names: seq<Name>, hash: Name -> nat, hot: Hot) returns (ok: bool)
    requires Indexed(slots[..], names, |names|, hash) && CaseBlind(hash) && hot == HotAfter(names, |names|)
    ensures ok == (hot == HotRows(names)) && ok == AllCanonical(names)
  {
    ok := CheckOne(slots, names, hash, hot.get, GET);
    if ok {
      ok := CheckOne(slots, names, hash, hot.set_, SET);
    }
    if ok {
      ok := CheckOne(slots, names, hash, hot.del, DEL);
    }
    if ok {
      ok := CheckOne(slots, names, hash, hot.mget, MGET);
    }
    if ok {
      ok := CheckOne(slots, names, hash, hot.mset, MSET);
    }
    if ok {
      ok := CheckOne(slots, names, hash, hot.incr, INCR);
    }
    CheckMeaning(names);
  }

  lemma CheckMeaning(names: seq<Name>)
    requires NoTwins(names, |names|)
    ensures HotAfter(names, |names|) == HotRows(names) <==> AllCanonical(names)
  {
    HotAgrees(names, GET);
    HotAgrees(names, SET);
    HotAgrees(names, DEL);
    HotAgrees(names, MGET);
    HotAgrees(names, MSET);
    HotAgrees(names, INCR);
  }

  method CheckOne(slots: array<int>, names: seq<Name>, hash: Name -> nat, row: int, verb: Name) returns (ok: bool)
    requires Indexed(slots[..], names, |names|, hash) && CaseBlind(hash)
    ensures ok == (row == Scan(names, |names|, verb))
  {
    var found := Find(slots, names, |names|, hash, verb);
    ok := row == found;
  }
}
