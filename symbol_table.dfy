/** A symbol table of the Jack compiler: one per class and one per
    subroutine. A symbol's type, kind and index are packed into one Java int,
    modelled here as its 32-bit pattern. */
module SymbolTables {
  import opened Base

  datatype SymbolType = BooleanType | CharType | ClassNameType | IntType

  datatype SymbolKind = Argument | Field | Local | Static

  /** A symbol value is the 32-bit pattern of a Java int, read as a number
      in [0, 2^32); bit b is set when (v / 2^b) % 2 == 1. getVal's answer for
      an unknown name is the int -1, whose pattern has every bit set. */
  const NotFound: nat := 0xFFFF_FFFF

  function TypeBits(t: SymbolType): nat
  {
    match t
    case IntType => 1
    case CharType => 2
    case BooleanType => 4
    case ClassNameType => 8
  }

  function KindBits(k: SymbolKind): nat
  {
    match k
    case Field => 16
    case Static => 32
    case Local => 64
    case Argument => 128
  }

  function Pow2(n: nat): (p: nat)
    ensures p >= 1
  {
    if n == 0 then 1 else 2 * Pow2(n - 1)
  }

  /** Bitwise or on non-negative numbers. */
  function Or(a: nat, b: nat): nat
    decreases a
  {
    if a == 0 then b
    else if b == 0 then a
    else 2 * Or(a / 2, b / 2) + (if a % 2 == 1 || b % 2 == 1 then 1 else 0)
  }

  /** The value insertSymbol stores and returns: ((kind | type) << 24) | index,
      the index being the Java int counter's 32-bit pattern. */
  function Pack(t: SymbolType, k: SymbolKind, index: nat): nat
  {
    Or(Or(KindBits(k), TypeBits(t)) * 0x100_0000, index % 0x1_0000_0000)
  }

  /** getIndex: val & 0xFFFFFF, the low 24 bits. */
  function GetIndex(v: nat): nat
  {
    v % 0x100_0000
  }

  /** getKind: the first of bits 31, 30, 29, 28 that is set, standing for
      ARGUMENT, LOCAL, STATIC and FIELD; None for the source's null. */
  function GetKind(v: nat): Option<SymbolKind>
  {
    if (v / 0x8000_0000) % 2 == 1 then Some(Argument)
    else if (v / 0x4000_0000) % 2 == 1 then Some(Local)
    else if (v / 0x2000_0000) % 2 == 1 then Some(Static)
    else if (v / 0x1000_0000) % 2 == 1 then Some(Field)
    else None
  }

  /** getType: the first of bits 27, 26, 25, 24 that is set, standing for
      CLASS_NAME, BOOLEAN, CHAR and INT; None for the source's null. */
  function GetType(v: nat): Option<SymbolType>
  {
    if (v / 0x800_0000) % 2 == 1 then Some(ClassNameType)
    else if (v / 0x400_0000) % 2 == 1 then Some(BooleanType)
    else if (v / 0x200_0000) % 2 == 1 then Some(CharType)
    else if (v / 0x100_0000) % 2 == 1 then Some(IntType)
    else None
  }

  /** Or-ing a number below 2^n into a multiple of 2^n adds it. */
  lemma {:induction false} OrShifted(x: nat, n: nat, i: nat)
    requires i < Pow2(n)
    ensures Or(x * Pow2(n), i) == x * Pow2(n) + i
  {
    var a := x * Pow2(n);
    if n > 0 && a != 0 && i != 0 {
      assert a == 2 * (x * Pow2(n - 1));
      assert a / 2 == x * Pow2(n - 1) && a % 2 == 0;
      OrShifted(x, n - 1, i / 2);
    }
  }

  lemma Pow2Values()
    ensures Pow2(4) == 16 && Pow2(24) == 0x100_0000
  {
    assert Pow2(4) == 16;
    assert Pow2(8) == 256;
    assert Pow2(12) == 0x1000;
    assert Pow2(16) == 0x1_0000;
    assert Pow2(20) == 0x10_0000;
  }

  /** The kind and type bits do not overlap, so or-ing them adds them. */
  lemma OrKindType(t: SymbolType, k: SymbolKind)
    ensures Or(KindBits(k), TypeBits(t)) == KindBits(k) + TypeBits(t)
  {
    Pow2Values();
    var x: nat := match k case Field => 1 case Static => 2 case Local => 4 case Argument => 8;
    assert KindBits(k) == x * Pow2(4);
    OrShifted(x, 4, TypeBits(t));
  }

  /** Or-ing a number below 2^24 into a multiple of 2^24 adds it. */
  lemma OrShifted24(x: nat, i: nat)
    requires i < 0x100_0000
    ensures Or(x * 0x100_0000, i) == x * 0x100_0000 + i
  {
    Pow2Values();
    assert x * Pow2(24) == x * 0x100_0000;
    OrShifted(x, 24, i);
  }

  /** Below 2^24 the packed value is (kind + type) * 2^24 + index. */
  lemma PackSum(t: SymbolType, k: SymbolKind, index: nat)
    requires index < 0x100_0000
    ensures Pack(t, k, index) == (KindBits(k) + TypeBits(t)) * 0x100_0000 + index
  {
    var x := Or(KindBits(k), TypeBits(t));
    OrKindType(t, k);
    assert index % 0x1_0000_0000 == index;
    OrShifted24(x, index);
  }

  lemma DecodeKind(k: SymbolKind, r: nat)
    requires r < 0x1000_0000
    ensures GetKind(KindBits(k) * 0x100_0000 + r) == Some(k)
  {
  }

  lemma DecodeType(t: SymbolType, k: SymbolKind, r: nat)
    requires r < 0x100_0000
    ensures GetType(KindBits(k) * 0x100_0000 + TypeBits(t) * 0x100_0000 + r) == Some(t)
  {
    match k {
      case Field =>
      case Static =>
      case Local =>
      case Argument =>
    }
  }

  lemma DecodeSum(t: SymbolType, k: SymbolKind, index: nat)
    requires index < 0x100_0000
    ensures GetIndex(KindBits(k) * 0x100_0000 + TypeBits(t) * 0x100_0000 + index) == index
    ensures GetKind(KindBits(k) * 0x100_0000 + TypeBits(t) * 0x100_0000 + index) == Some(k)
    ensures GetType(KindBits(k) * 0x100_0000 + TypeBits(t) * 0x100_0000 + index) == Some(t)
  {
    DecodeKind(k, TypeBits(t) * 0x100_0000 + index);
    DecodeType(t, k, index);
  }

  /** Decoding a packed value recovers the inserted type, kind and index. */
  lemma DecodePack(t: SymbolType, k: SymbolKind, index: nat)
    requires index < 0x100_0000
    ensures GetIndex(Pack(t, k, index)) == index
    ensures GetKind(Pack(t, k, index)) == Some(k)
    ensures GetType(Pack(t, k, index)) == Some(t)
  {
    PackSum(t, k, index);
    var K, T := KindBits(k), TypeBits(t);
    assert (K + T) * 0x100_0000 == K * 0x100_0000 + T * 0x100_0000;
    DecodeSum(t, k, index);
  }

  /** A packed value is never the not-found answer -1. */
  lemma PackIsNotNotFound(t: SymbolType, k: SymbolKind, index: nat)
    requires index < 0x100_0000
    ensures Pack(t, k, index) != NotFound
  {
    PackSum(t, k, index);
  }

  /** Packing is one-to-one below 2^24. */
  lemma PackInjective(t1: SymbolType, k1: SymbolKind, i1: nat, t2: SymbolType, k2: SymbolKind, i2: nat)
    requires i1 < 0x100_0000 && i2 < 0x100_0000
    requires Pack(t1, k1, i1) == Pack(t2, k2, i2)
    ensures t1 == t2 && k1 == k2 && i1 == i2
  {
    DecodePack(t1, k1, i1);
    DecodePack(t2, k2, i2);
  }

  /** One insertion: the name, its type and kind, the index it received, and
      the class name recorded for it by the class-name overload. */
  datatype Entry = Entry(name: string, symbolType: SymbolType, kind: SymbolKind, index: nat, className: Option<string>)

  function EntryValue(e: Entry): nat { Pack(e.symbolType, e.kind, e.index) }

  /** The number of insertions of kind k. */
  function CountKind(h: seq<Entry>, k: SymbolKind): nat
  {
    if h == [] then 0
    else CountKind(h[..|h| - 1], k) + (if h[|h| - 1].kind == k then 1 else 0)
  }

  /** Each insertion received as index the number of earlier insertions of its kind. */
  ghost predicate DenseIndices(h: seq<Entry>)
  {
    h == [] || (DenseIndices(h[..|h| - 1]) && h[|h| - 1].index == CountKind(h[..|h| - 1], h[|h| - 1].kind))
  }

  lemma {:induction false} DenseAt(h: seq<Entry>, j: nat)
    requires DenseIndices(h) && j < |h|
    ensures h[j].index == CountKind(h[..j], h[j].kind)
  {
    if j < |h| - 1 {
      var h' := h[..|h| - 1];
      DenseAt(h', j);
      assert h'[..j] == h[..j];
    }
  }

  /** The name-to-value map after the insertions h: a later insertion of a
      name overwrites an earlier one. */
  function Bindings(h: seq<Entry>): map<string, nat>
  {
    if h == [] then map[]
    else Bindings(h[..|h| - 1])[h[|h| - 1].name := EntryValue(h[|h| - 1])]
  }

  /** The value-to-class-name map after the insertions h. */
  function RecordedClasses(h: seq<Entry>): map<nat, string>
  {
    if h == [] then map[]
    else
      var e := h[|h| - 1];
      if e.className.Some? then RecordedClasses(h[..|h| - 1])[EntryValue(e) := e.className.value]
      else RecordedClasses(h[..|h| - 1])
  }

  /** The indices of the k-insertions, in insertion order. */
  function KindIndices(h: seq<Entry>, k: SymbolKind): seq<nat>
  {
    if h == [] then []
    else KindIndices(h[..|h| - 1], k) + (if h[|h| - 1].kind == k then [h[|h| - 1].index] else [])
  }

  function Upto(n: nat): (r: seq<nat>)
    ensures |r| == n && forall i :: 0 <= i < n ==> r[i] == i
  {
    if n == 0 then [] else Upto(n - 1) + [n - 1]
  }

  /** Dense indexing: the k-insertions received 0, 1, ..., N - 1 in order,
      N being their number. */
  lemma {:induction false} KindIndicesAreDense(h: seq<Entry>, k: SymbolKind)
    requires DenseIndices(h)
    ensures KindIndices(h, k) == Upto(CountKind(h, k))
  {
    if h != [] {
      KindIndicesAreDense(h[..|h| - 1], k);
    }
  }

  /** Within one table, distinct insertions received distinct indices within
      their kind, so (below 2^24) distinct values. */
  lemma {:induction false} CountKindGrows(h: seq<Entry>, i: nat, j: nat)
    requires i < j <= |h| && h[i].kind == h[j - 1].kind
    ensures CountKind(h[..i], h[i].kind) < CountKind(h[..j], h[i].kind)
    decreases j - i
  {
    var k := h[i].kind;
    assert h[..j][..j - 1] == h[..j - 1];
    if i < j - 1 {
      CountKindMonotone(h, i + 1, j - 1, k);
      assert h[..i + 1][..i] == h[..i];
    } else {
      assert h[..i + 1][..i] == h[..i];
    }
  }

  lemma {:induction false} CountKindMonotone(h: seq<Entry>, i: nat, j: nat, k: SymbolKind)
    requires i <= j <= |h|
    ensures CountKind(h[..i], k) <= CountKind(h[..j], k)
    decreases j - i
  {
    if i < j {
      CountKindMonotone(h, i, j - 1, k);
      assert h[..j][..j - 1] == h[..j - 1];
    }
  }

  lemma DistinctInsertionsDistinctValues(h: seq<Entry>, i: nat, j: nat)
    requires DenseIndices(h) && i < j < |h|
    requires h[i].index < 0x100_0000 && h[j].index < 0x100_0000
    ensures EntryValue(h[i]) != EntryValue(h[j])
  {
    DenseAt(h, i);
    DenseAt(h, j);
    if h[i].kind == h[j].kind {
      CountKindGrows(h, i, j + 1);
      assert h[..j + 1][..j] == h[..j];
      CountKindMonotone(h, i + 1, j, h[i].kind);
      assert h[..i + 1][..i] == h[..i];
    }
    if EntryValue(h[i]) == EntryValue(h[j]) {
      PackInjective(h[i].symbolType, h[i].kind, h[i].index, h[j].symbolType, h[j].kind, h[j].index);
    }
  }

  /** What one more insertion does to the functions of the history. */
  lemma Append(h: seq<Entry>, e: Entry)
    ensures (h + [e])[..|h|] == h
    ensures Bindings(h + [e]) == Bindings(h)[e.name := EntryValue(e)]
    ensures e.className.None? ==> RecordedClasses(h + [e]) == RecordedClasses(h)
    ensures e.className.Some? ==> RecordedClasses(h + [e]) == RecordedClasses(h)[EntryValue(e) := e.className.value]
  {
    assert (h + [e])[..|h|] == h;
  }

  lemma CountAppend(h: seq<Entry>, e: Entry, k: SymbolKind)
    ensures CountKind(h + [e], k) == CountKind(h, k) + (if e.kind == k then 1 else 0)
  {
    assert (h + [e])[..|h|] == h;
  }

  lemma AppendDense(h: seq<Entry>, e: Entry)
    requires DenseIndices(h) && e.index == CountKind(h, e.kind)
    ensures DenseIndices(h + [e])
  {
    assert (h + [e])[..|h|] == h;
  }

  /** The table's maps and counters are those of the insertions h. */
  ghost predicate Consistent(h: seq<Entry>, vals: map<string, nat>, classes: map<nat, string>,
                             argument: nat, field: nat, local: nat, stat: nat)
  {
    && DenseIndices(h)
    && vals == Bindings(h)
    && classes == RecordedClasses(h)
    && argument == CountKind(h, Argument)
    && field == CountKind(h, Field)
    && local == CountKind(h, Local)
    && stat == CountKind(h, Static)
  }

  function Bump(n: nat, k: SymbolKind, kind: SymbolKind): nat
  {
    if k == kind then n + 1 else n
  }

  /** One insertion with the next index of its kind keeps the table consistent. */
  lemma InsertConsistent(h: seq<Entry>, vals: map<string, nat>, classes: map<nat, string>,
                         argument: nat, field: nat, local: nat, stat: nat, e: Entry)
    requires Consistent(h, vals, classes, argument, field, local, stat)
    requires e.index == CountKind(h, e.kind)
    ensures Consistent(h + [e], vals[e.name := EntryValue(e)],
                       if e.className.Some? then classes[EntryValue(e) := e.className.value] else classes,
                       Bump(argument, Argument, e.kind), Bump(field, Field, e.kind),
                       Bump(local, Local, e.kind), Bump(stat, Static, e.kind))
  {
    Append(h, e);
    AppendDense(h, e);
    CountAppend(h, e, Argument);
    CountAppend(h, e, Field);
    CountAppend(h, e, Local);
    CountAppend(h, e, Static);
  }

  class SymbolTable {
    var hashMap: map<string, nat>
    var classNameHashMap: map<nat, string>
    var argument: nat
    var field: nat
    var local: nat
    var stat: nat
    /** Every insertion so far, oldest first. */
    ghost var history: seq<Entry>

    ghost predicate Valid()
      reads this
    {
      Consistent(history, hashMap, classNameHashMap, argument, field, local, stat)
    }

    function Counter(k: SymbolKind): nat
      reads this
    {
      match k
      case Argument => argument
      case Field => field
      case Local => local
      case Static => stat
    }

    /** A fresh table: no symbols, every counter at 0. */
    constructor ()
      ensures Valid() && history == [] && hashMap == map[] && classNameHashMap == map[]
      ensures argument == 0 && field == 0 && local == 0 && stat == 0
    {
      hashMap, classNameHashMap := map[], map[];
      argument, field, local, stat := 0, 0, 0, 0;
      history := [];
    }

    /** The switch on the kind inside insertSymbol: takes that kind's counter
        as the index and advances it, leaving the other counters alone. */
    method NextIndex(kind: SymbolKind) returns (index: nat)
      modifies this
      ensures index == old(Counter(kind))
      ensures argument == Bump(old(argument), Argument, kind) && field == Bump(old(field), Field, kind)
      ensures local == Bump(old(local), Local, kind) && stat == Bump(old(stat), Static, kind)
      ensures hashMap == old(hashMap) && classNameHashMap == old(classNameHashMap) && history == old(history)
    {
      match kind {
        case Field => index := field; field := field + 1;
        case Static => index := stat; stat := stat + 1;
        case Local => index := local; local := local + 1;
        case Argument => index := argument; argument := argument + 1;
      }
    }

    /** insertSymbol(symbol, type, kind): gives the symbol the next index of its
        kind, advances only that kind's counter, (re)binds the name and returns
        the packed value. */
    method InsertSymbol(symbol: string, symbolType: SymbolType, kind: SymbolKind) returns (val: nat)
      requires Valid()
      modifies this
      ensures Valid()
      ensures history == old(history) + [Entry(symbol, symbolType, kind, old(Counter(kind)), None)]
      ensures val == Pack(symbolType, kind, old(Counter(kind)))
      ensures hashMap == old(hashMap)[symbol := val] && classNameHashMap == old(classNameHashMap)
      ensures Counter(kind) == old(Counter(kind)) + 1
      ensures forall k :: k != kind ==> Counter(k) == old(Counter(k))
    {
      ghost var e := Entry(symbol, symbolType, kind, Counter(kind), None);
      InsertConsistent(history, hashMap, classNameHashMap, argument, field, local, stat, e);
      var index := NextIndex(kind);
      val := Pack(symbolType, kind, index);
      hashMap := hashMap[symbol := val];
      history := history + [e];
    }

    /** insertSymbol(symbol, className, kind): inserts a class-typed symbol and
        records its class name under the returned value. */
    method InsertClassSymbol(symbol: string, className: string, kind: SymbolKind)
      requires Valid()
      modifies this
      ensures Valid()
      ensures history == old(history) + [Entry(symbol, ClassNameType, kind, old(Counter(kind)), Some(className))]
      ensures hashMap == old(hashMap)[symbol := Pack(ClassNameType, kind, old(Counter(kind)))]
      ensures classNameHashMap == old(classNameHashMap)[Pack(ClassNameType, kind, old(Counter(kind))) := className]
      ensures Counter(kind) == old(Counter(kind)) + 1
      ensures forall k :: k != kind ==> Counter(k) == old(Counter(k))
    {
      ghost var e := Entry(symbol, ClassNameType, kind, Counter(kind), Some(className));
      InsertConsistent(history, hashMap, classNameHashMap, argument, field, local, stat, e);
      var val := InsertSymbol(symbol, ClassNameType, kind);
      classNameHashMap := classNameHashMap[val := className];
      history := old(history) + [e];
    }

    /** getVal: the value of the latest insertion of the name, or -1. */
    function GetVal(symbol: string): nat
      reads this
    {
      if symbol in hashMap then hashMap[symbol] else NotFound
    }

    /** getClassName: the class name recorded for a value; None for null. */
    function GetClassName(val: nat): Option<string>
      reads this
    {
      if val in classNameHashMap then Some(classNameHashMap[val]) else None
    }

    /** getNumberOfFields: the number of FIELD insertions. */
    function NumberOfFields(): (n: nat)
      reads this
      requires Valid()
      ensures n == CountKind(history, Field)
    {
      field
    }

    /** getNumberOfLocalVariables: the number of LOCAL insertions. */
    function NumberOfLocalVariables(): (n: nat)
      reads this
      requires Valid()
      ensures n == CountKind(history, Local)
    {
      local
    }
  }
}
