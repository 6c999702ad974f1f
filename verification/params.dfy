/**
 * The parameter container of router/params.go: the captured (name, value)
 * pairs in path order, read with first-match lookup, decimal parsing and a
 * Scan that stores a value into a destination chosen by its kind.
 */
module Params {
  import opened Optional
  import opened Errors
  import opened Strconv

  /** One captured parameter: Go's `param{k, v}`. */
  datatype Param = Param(key: string, value: string)

  /** Go's `Params`: an ordered slice, not a map, so a name may occur twice. */
  type Params = seq<Param>

  const ErrUnsupportedType: Err := Plain("unsupported destination type")
  const ErrValueDestination: Err := Plain("destination is a value, not a pointer")

  /** Get: the value of the first pair named k, or "" when there is none. */
  function Get(p: Params, k: string): (v: string)
    ensures (forall i :: 0 <= i < |p| ==> p[i].key != k) ==> v == ""
    ensures forall i :: 0 <= i < |p| && p[i].key == k && (forall j :: 0 <= j < i ==> p[j].key != k) ==> v == p[i].value
  {
    if p == [] then ""
    else if p[0].key == k then p[0].value
    else Get(p[1..], k)
  }

  /** A parse result: the value and, when parsing failed, the *strconv.NumError unchanged. */
  function AsErr(e: Option<NumError>): Option<Err>
  {
    match e
    case None => None
    case Some(n) => Some(Num(n))
  }

  /**
   * GetInt: zero and no error when the value is absent or empty, and otherwise
   * exactly what ParseInt(v, 10, 64) returns.
   */
  function GetInt(p: Params, k: string): (r: (int, Option<Err>))
    ensures Get(p, k) == "" ==> r == (0, None)
    ensures Get(p, k) != "" ==> r == (ParseInt(Get(p, k)).0, AsErr(ParseInt(Get(p, k)).1))
    ensures MinInt64 <= r.0 <= MaxInt64
  {
    var v := Get(p, k);
    if v == "" then (0, None)
    else
      var (n, e) := ParseInt(v);
      (n, AsErr(e))
  }

  /**
   * GetUint: zero and no error when the value is absent or empty, and otherwise
   * exactly what ParseUint(v, 10, 64) returns.
   */
  function GetUint(p: Params, k: string): (r: (int, Option<Err>))
    ensures Get(p, k) == "" ==> r == (0, None)
    ensures Get(p, k) != "" ==> r == (ParseUint(Get(p, k)).0, AsErr(ParseUint(Get(p, k)).1))
    ensures 0 <= r.0 <= MaxUint64
  {
    var v := Get(p, k);
    if v == "" then (0, None)
    else
      var (n, e) := ParseUint(v);
      (n, AsErr(e))
  }

  // ----- Scan -----

  /** The reflect.Kind of what a pointer destination points to. */
  datatype Kind =
    | Signed(bits: nat)     // int (64 bits here), int8, int16, int32, int64
    | Unsigned(bits: nat)   // uint (64 bits here), uint8, uint16, uint32, uint64
    | OtherKind             // any kind the switch does not list

  /** What `dst interface{}` is, in the order Scan inspects it. */
  datatype Target =
    | StringPtr                                // exactly *string
    | BytesPtr                                 // exactly *[]byte
    | NonPointer                               // any value whose kind is not Ptr
    | PointerTo(elem: Kind, isScanner: bool)   // any other pointer; isScanner: it implements Scanner

  /** What Scan does to the destination. */
  datatype Effect =
    | StoreText(text: string)      // *v = ... for *string and *[]byte
    | StoreNumber(n: int)          // SetInt / SetUint
    | CallScanner(src: string)     // the destination's own Scan(src) is called
    | NoEffect

  /** A width Go uses for an integer kind. */
  predicate ValidWidth(bits: nat)
  {
    bits == 8 || bits == 16 || bits == 32 || bits == 64
  }

  /** 2 to the power bits, for the widths Go has. */
  function Modulus(bits: nat): (m: nat)
    requires ValidWidth(bits)
  {
    if bits == 8 then 0x100
    else if bits == 16 then 0x1_0000
    else if bits == 32 then 0x1_0000_0000
    else 0x1_0000_0000_0000_0000
  }

  /** `reflect.Value.SetInt` on a signed integer of the given width: two's complement truncation. */
  function WrapSigned(v: int, bits: nat): int
    requires ValidWidth(bits)
  {
    var m := Modulus(bits);
    var x := v % m;
    if x >= m / 2 then x - m else x
  }

  /** `reflect.Value.SetUint` on an unsigned integer of the given width: truncation modulo 2^bits. */
  function WrapUnsigned(v: int, bits: nat): int
    requires ValidWidth(bits)
  {
    v % Modulus(bits)
  }

  /** SetInt stores a value of the destination's range that agrees with v modulo 2^bits, and keeps v when it fits. */
  lemma WrapSignedRange(v: int, bits: nat)
    requires ValidWidth(bits)
    ensures var m := Modulus(bits);
      && -(m / 2) <= WrapSigned(v, bits) < m / 2
      && (WrapSigned(v, bits) == v % m || WrapSigned(v, bits) == v % m - m)
      && (-(m / 2) <= v < m / 2 ==> WrapSigned(v, bits) == v)
  {
  }

  /** SetUint stores a value of the destination's range that agrees with v modulo 2^bits, and keeps v when it fits. */
  lemma WrapUnsignedRange(v: int, bits: nat)
    requires ValidWidth(bits)
    ensures var m := Modulus(bits);
      && 0 <= WrapUnsigned(v, bits) < m
      && WrapUnsigned(v, bits) % m == v % m
      && (0 <= v < m ==> WrapUnsigned(v, bits) == v)
  {
  }

  /**
   * What Scan does for destination t and what it returns, when the Scanner of
   * the destination (if it is called) returns scannerErr. Apart from the
   * hand-off to the Scanner, the destination is written exactly when no
   * error is returned.
   */
  function ScanSpec(p: Params, k: string, t: Target, scannerErr: Option<Err>): (r: (Effect, Option<Err>))
    requires t.PointerTo? && !t.elem.OtherKind? ==> ValidWidth(t.elem.bits)
    ensures !r.0.CallScanner? ==> (r.0 == NoEffect <==> r.1.Some?)
    ensures r.0.CallScanner? ==> r.0.src == Get(p, k) && r.1 == scannerErr
  {
    match t
    case StringPtr => (StoreText(Get(p, k)), None)
    case BytesPtr => (StoreText(Get(p, k)), None)
    case NonPointer => (NoEffect, Some(ErrValueDestination))
    case PointerTo(Signed(bits), _) =>
      var (c, err) := GetInt(p, k);
      if err.Some? then (NoEffect, err) else (StoreNumber(WrapSigned(c, bits)), None)
    case PointerTo(Unsigned(bits), _) =>
      var (c, err) := GetUint(p, k);
      if err.Some? then (NoEffect, err) else (StoreNumber(WrapUnsigned(c, bits)), None)
    case PointerTo(OtherKind, isScanner) =>
      if isScanner then (CallScanner(Get(p, k)), scannerErr)
      else (NoEffect, Some(ErrUnsupportedType))
  }

  /** Scan into a *string or a *[]byte always succeeds and stores Get(k). */
  lemma ScanText(p: Params, k: string, t: Target, e: Option<Err>)
    requires t == StringPtr || t == BytesPtr
    ensures ScanSpec(p, k, t, e) == (StoreText(Get(p, k)), None)
  {
  }

  /** Any destination that is not a pointer is refused, whatever it implements. */
  lemma ScanNonPointer(p: Params, k: string, e: Option<Err>)
    ensures ScanSpec(p, k, NonPointer, e) == (NoEffect, Some(ErrValueDestination))
  {
  }

  /**
   * An integer destination is filled from GetInt or GetUint, even when it
   * implements Scanner; a parse error is returned unchanged and leaves the
   * destination alone.
   */
  lemma ScanInteger(p: Params, k: string, t: Target, e: Option<Err>)
    requires t.PointerTo? && !t.elem.OtherKind? && ValidWidth(t.elem.bits)
    ensures var (eff, err) := ScanSpec(p, k, t, e);
      var (c, perr) := if t.elem.Signed? then GetInt(p, k) else GetUint(p, k);
      && err == perr
      && (perr.Some? ==> eff == NoEffect)
      && (perr.None? ==> eff.StoreNumber?)
      && (perr.None? && t.elem.bits == 64 ==> eff == StoreNumber(c))
      && !eff.CallScanner?
  {
    var (c, perr) := if t.elem.Signed? then GetInt(p, k) else GetUint(p, k);
    if perr.None? && t.elem.bits == 64 {
      if t.elem.Signed? {
        WrapSignedRange(c, 64);
      } else {
        WrapUnsignedRange(c, 64);
      }
    }
  }

  /** Only a pointer to a kind the switch does not list reaches the Scanner check. */
  lemma ScanOther(p: Params, k: string, isScanner: bool, e: Option<Err>)
    ensures ScanSpec(p, k, PointerTo(OtherKind, isScanner), e) ==
      if isScanner then (CallScanner(Get(p, k)), e) else (NoEffect, Some(ErrUnsupportedType))
  {
  }

  /** The variable behind `dst`. */
  class Destination {
    const target: Target
    /** The string or byte slice it holds. */
    var text: string
    /** The integer it holds. */
    var number: int
    /** The arguments its own Scan method received, oldest first. */
    var scanned: seq<string>

    constructor (t: Target)
      ensures target == t && text == "" && number == 0 && scanned == []
    {
      target := t;
      text := "";
      number := 0;
      scanned := [];
    }
  }

  /**
   * Scan writes through the destination as ScanSpec says and returns its
   * error; `scannerErr` is what the destination's own Scan returns if it is
   * called (user code, outside the model).
   */
  method Scan(p: Params, k: string, dst: Destination, scannerErr: Option<Err>) returns (err: Option<Err>)
    requires dst.target.PointerTo? && !dst.target.elem.OtherKind? ==> ValidWidth(dst.target.elem.bits)
    modifies dst
    ensures err == ScanSpec(p, k, dst.target, scannerErr).1
    ensures match ScanSpec(p, k, dst.target, scannerErr).0
      case StoreText(s) => dst.text == s && dst.number == old(dst.number) && dst.scanned == old(dst.scanned)
      case StoreNumber(n) => dst.number == n && dst.text == old(dst.text) && dst.scanned == old(dst.scanned)
      case CallScanner(s) => dst.scanned == old(dst.scanned) + [s] && dst.text == old(dst.text) && dst.number == old(dst.number)
      case NoEffect => dst.text == old(dst.text) && dst.number == old(dst.number) && dst.scanned == old(dst.scanned)
  {
    match dst.target
    case StringPtr =>
      dst.text := Get(p, k);
      return None;
    case BytesPtr =>
      dst.text := Get(p, k);
      return None;
    case NonPointer =>
      return Some(ErrValueDestination);
    case PointerTo(elem, isScanner) =>
      match elem
      case Signed(bits) =>
        var (c, e) := GetInt(p, k);
        if e.Some? {
          return e;
        }
        dst.number := WrapSigned(c, bits);
        return None;
      case Unsigned(bits) =>
        var (c, e) := GetUint(p, k);
        if e.Some? {
          return e;
        }
        dst.number := WrapUnsigned(c, bits);
        return None;
      case OtherKind =>
        if isScanner {
          dst.scanned := dst.scanned + [Get(p, k)];
          return scannerErr;
        }
        return Some(ErrUnsupportedType);
  }
}
