/**
 * The two integer enumerations of the subscriber documents (`Device.Status` and
 * `Subscriber.Status`) and the `coerce` class method they share, which turns a
 * form value back into a member: a member is returned as it is, anything else is
 * converted with Python's `int(...)` and then looked up by value.
 */
module Enums {
  import opened Wrappers

  /** Why `coerce` raised: `int(...)` rejected the text, or no member has that value. */
  datatype CoerceError = NotAnInteger(text: string) | NotAMember(value: int)

  /** What `coerce` may be handed: a member already, an `int` (or `bool`), or a `str`. */
  datatype Item<S> = Member(member: S) | Number(n: int) | Text(text: string)

  // ---------------------------------------------------------------------------
  // Decimal text, as `str(int)` prints it and `int(str)` reads it
  // ---------------------------------------------------------------------------

  predicate IsDigit(c: char) { '0' <= c <= '9' }

  predicate AllDigits(d: string) { forall i :: 0 <= i < |d| ==> IsDigit(d[i]) }

  /** The ASCII whitespace that `int(...)` ignores around its argument. */
  predicate IsSpace(c: char) {
    c == ' ' || c == '\t' || c == '\n' || c == '\r' || c as int == 11 || c as int == 12
  }

  function TrimStart(s: string): (r: string)
    ensures |r| <= |s| && r == s[|s| - |r|..]
    ensures r != [] ==> !IsSpace(r[0])
  {
    if s != [] && IsSpace(s[0]) then TrimStart(s[1..]) else s
  }

  function TrimEnd(s: string): (r: string)
    ensures |r| <= |s| && r == s[..|r|]
    ensures r != [] ==> !IsSpace(r[|r| - 1])
  {
    if s != [] && IsSpace(s[|s| - 1]) then TrimEnd(s[..|s| - 1]) else s
  }

  function Strip(s: string): string { TrimEnd(TrimStart(s)) }

  predicate AllSpace(w: string) { forall i :: 0 <= i < |w| ==> IsSpace(w[i]) }

  /** `TrimStart` removes whitespace only. */
  lemma {:induction false} TrimStartRemovesSpace(s: string)
    ensures AllSpace(s[..|s| - |TrimStart(s)|])
  {
    if s != [] && IsSpace(s[0]) {
      var r := TrimStart(s[1..]);
      TrimStartRemovesSpace(s[1..]);
      assert s[..|s| - |r|] == [s[0]] + s[1..][..|s| - 1 - |r|];
    }
  }

  /** `TrimEnd` removes whitespace only. */
  lemma {:induction false} TrimEndRemovesSpace(s: string)
    ensures AllSpace(s[|TrimEnd(s)|..])
  {
    if s != [] && IsSpace(s[|s| - 1]) {
      var r := TrimEnd(s[..|s| - 1]);
      TrimEndRemovesSpace(s[..|s| - 1]);
      assert s[|r|..] == s[..|s| - 1][|r|..] + [s[|s| - 1]];
    }
  }

  /** Leading whitespace is skipped up to the first non-space character. */
  lemma {:induction false} TrimStartSpaces(w: string, x: string)
    requires AllSpace(w) && x != [] && !IsSpace(x[0])
    ensures TrimStart(w + x) == x
  {
    if w == [] {
      assert w + x == x;
    } else {
      assert (w + x)[0] == w[0] && (w + x)[1..] == w[1..] + x;
      TrimStartSpaces(w[1..], x);
    }
  }

  /** Trailing whitespace is skipped back to the last non-space character. */
  lemma {:induction false} TrimEndSpaces(x: string, w: string)
    requires AllSpace(w) && x != [] && !IsSpace(x[|x| - 1])
    ensures TrimEnd(x + w) == x
  {
    if w == [] {
      assert x + w == x;
    } else {
      var xw := x + w;
      assert xw[|xw| - 1] == w[|w| - 1] && xw[..|xw| - 1] == x + w[..|w| - 1];
      TrimEndSpaces(x, w[..|w| - 1]);
    }
  }

  /** The value of a string of decimal digits, most significant first. */
  function DigitsValue(d: string): nat
    requires AllDigits(d)
  {
    if d == [] then 0 else 10 * DigitsValue(d[..|d| - 1]) + (d[|d| - 1] as int - '0' as int)
  }

  /** `str(n)` for a non-negative `n`: the shortest decimal numeral, which reads back as `n`. */
  function DecimalString(n: nat): (s: string)
    ensures s != [] && AllDigits(s)
    ensures DigitsValue(s) == n
    ensures |s| > 1 ==> s[0] != '0'
  {
    if n < 10 then [('0' as int + n) as char]
    else
      var s := DecimalString(n / 10) + [('0' as int + n % 10) as char];
      assert s[..|s| - 1] == DecimalString(n / 10);
      s
  }

  /** `int(text)`: optional surrounding whitespace, an optional sign, then one or more digits. */
  function ParseInt(text: string): (r: Option<int>)
    ensures r.Some? && AllDigits(text) ==> r.value >= 0
  {
    ParseNumber(Strip(text))
  }

  /** The sign and digits that remain once `int(...)` has stripped the whitespace. */
  function ParseNumber(u: string): Option<int> {
    var signed := u != [] && (u[0] == '+' || u[0] == '-');
    var digits := if signed then u[1..] else u;
    if digits == [] || !AllDigits(digits) then None
    else
      var n: int := DigitsValue(digits);
      Some(if signed && u[0] == '-' then -n else n)
  }

  /** Whitespace around a text that starts and ends with a non-space character is stripped off. */
  lemma StripPadding(w1: string, x: string, w2: string)
    requires AllSpace(w1) && AllSpace(w2)
    requires x != [] && !IsSpace(x[0]) && !IsSpace(x[|x| - 1])
    ensures Strip(w1 + x + w2) == x
  {
    assert w1 + x + w2 == w1 + (x + w2);
    assert (x + w2)[0] == x[0];
    TrimStartSpaces(w1, x + w2);
    TrimEndSpaces(x, w2);
  }

  /**
   * `int(text)` on its accepted form: whitespace, an optional `+` or `-`, a non-empty
   * run of digits, whitespace. The sign negates the digits' value.
   */
  lemma ParsePadded(w1: string, sign: string, d: string, w2: string)
    requires AllSpace(w1) && AllSpace(w2)
    requires sign == "" || sign == "+" || sign == "-"
    requires d != [] && AllDigits(d)
    ensures ParseInt(w1 + sign + d + w2) == Some(if sign == "-" then -(DigitsValue(d) as int) else DigitsValue(d))
  {
    var x := sign + d;
    assert IsDigit(d[0]) && IsDigit(d[|d| - 1]);
    assert x[0] == (if sign == "" then d[0] else sign[0]);
    assert x[|x| - 1] == d[|d| - 1];
    assert w1 + sign + d + w2 == w1 + x + w2;
    StripPadding(w1, x, w2);
    ParseSignedDigits(w1 + sign + d + w2, sign, d);
  }

  /** What `int(...)` makes of a text whose stripped form is a sign and digits. */
  lemma ParseSignedDigits(t: string, sign: string, d: string)
    requires sign == "" || sign == "+" || sign == "-"
    requires d != [] && AllDigits(d)
    requires Strip(t) == sign + d
    ensures ParseInt(t) == Some(if sign == "-" then -(DigitsValue(d) as int) else DigitsValue(d))
  {
    ParseViaStrip(t, sign + d);
    if sign == "" {
      assert sign + d == d;
      UnsignedNumber(d);
    } else {
      assert sign == [sign[0]];
      SignedNumber(sign[0], d);
    }
  }

  /** `int(...)` reads the stripped text. */
  lemma ParseViaStrip(t: string, u: string)
    requires Strip(t) == u
    ensures ParseInt(t) == ParseNumber(u)
  {
  }

  lemma UnsignedNumber(d: string)
    requires d != [] && AllDigits(d)
    ensures ParseNumber(d) == Some(DigitsValue(d))
  {
    assert IsDigit(d[0]);
  }

  lemma SignedNumber(c: char, d: string)
    requires c == '+' || c == '-'
    requires d != [] && AllDigits(d)
    ensures ParseNumber([c] + d) == Some(if c == '-' then -(DigitsValue(d) as int) else DigitsValue(d))
  {
    var u := [c] + d;
    assert u[0] == c && u[1..] == d;
  }

  /** Stripping splits a text into leading whitespace, the stripped text and trailing whitespace. */
  lemma StripForm(t: string) returns (w1: string, u: string, w2: string)
    ensures u == Strip(t)
    ensures AllSpace(w1) && AllSpace(w2)
    ensures t == w1 + u + w2
  {
    var r := TrimStart(t);
    w1 := t[..|t| - |r|];
    u := TrimEnd(r);
    TrimStartRemovesSpace(t);
    TrimEndRemovesSpace(r);
    w2 := r[|u|..];
    Regroup(t, w1, r, u, w2);
  }

  /** `t` split at two points, written back as one concatenation. */
  lemma Regroup<T>(t: seq<T>, a: seq<T>, r: seq<T>, u: seq<T>, c: seq<T>)
    requires |r| <= |t| && a == t[..|t| - |r|] && r == t[|t| - |r|..]
    requires |u| <= |r| && u == r[..|u|] && c == r[|u|..]
    ensures t == a + u + c
  {
    assert t == a + r;
    assert r == u + c;
  }

  /** What `ParseNumber` accepts is an optional sign followed by a non-empty run of digits. */
  lemma NumberForm(u: string) returns (sign: string, d: string)
    requires ParseNumber(u).Some?
    ensures sign == "" || sign == "+" || sign == "-"
    ensures d != [] && AllDigits(d)
    ensures u == sign + d
  {
    if u != [] && (u[0] == '+' || u[0] == '-') {
      sign, d := u[..1], u[1..];
      assert u == u[..1] + u[1..];
    } else {
      sign, d := "", u;
    }
  }

  /**
   * The converse of `ParsePadded`: every text `int(...)` accepts is whitespace, an
   * optional sign, a non-empty run of digits and whitespace.
   */
  lemma ParseIntForm(t: string) returns (w1: string, sign: string, d: string, w2: string)
    requires ParseInt(t).Some?
    ensures AllSpace(w1) && AllSpace(w2)
    ensures sign == "" || sign == "+" || sign == "-"
    ensures d != [] && AllDigits(d)
    ensures t == w1 + sign + d + w2
  {
    var u;
    w1, u, w2 := StripForm(t);
    sign, d := NumberForm(u);
    Reassociate(w1, sign, d, w2);
  }

  /** Regrouping a four-part concatenation. */
  lemma Reassociate<T>(a: seq<T>, b: seq<T>, c: seq<T>, e: seq<T>)
    ensures a + (b + c) + e == a + b + c + e
  {
  }

  /** Text that is blank, or a sign with no digits, is not an integer. */
  lemma ParseRejects(w1: string, sign: string, w2: string)
    requires AllSpace(w1) && AllSpace(w2)
    requires sign == "" || sign == "+" || sign == "-"
    ensures ParseInt(w1 + sign + w2) == None
  {
    if sign == "" {
      assert w1 + sign + w2 == w1 + w2;
      BlankRejected(w1, w2);
    } else {
      SignRejected(w1, sign, w2);
    }
  }

  lemma BlankRejected(w1: string, w2: string)
    requires AllSpace(w1) && AllSpace(w2)
    ensures ParseInt(w1 + w2) == None
  {
    var w := w1 + w2;
    assert AllSpace(w) by {
      forall i | 0 <= i < |w| ensures IsSpace(w[i]) {
        if i < |w1| { assert w[i] == w1[i]; } else { assert w[i] == w2[i - |w1|]; }
      }
    }
    BlankStrip(w);
    assert Strip(w) == [];
    ParseViaStrip(w, []);
  }

  lemma SignRejected(w1: string, sign: string, w2: string)
    requires AllSpace(w1) && AllSpace(w2)
    requires sign == "+" || sign == "-"
    ensures ParseInt(w1 + sign + w2) == None
  {
    StripPadding(w1, sign, w2);
    ParseViaStrip(w1 + sign + w2, sign);
    LoneSign(sign);
  }

  lemma LoneSign(sign: string)
    requires sign == "+" || sign == "-"
    ensures ParseNumber(sign) == None
  {
  }

  lemma {:induction false} BlankStrip(w: string)
    requires AllSpace(w)
    ensures TrimStart(w) == []
  {
    if w != [] {
      BlankStrip(w[1..]);
    }
  }

  /** A plain numeral, without whitespace or sign, reads as its digits' value. */
  lemma ParseNumeral(s: string)
    requires s != [] && AllDigits(s)
    ensures ParseInt(s) == Some(DigitsValue(s))
  {
    assert IsDigit(s[0]) && IsDigit(s[|s| - 1]);
    assert TrimStart(s) == s;
    assert TrimEnd(s) == s;
    ParseViaStrip(s, s);
    UnsignedNumber(s);
  }

  /** What `str(...)` prints is what `int(...)` reads back. */
  lemma ParseDecimalString(n: nat)
    ensures ParseInt(DecimalString(n)) == Some(n)
  {
    ParseNumeral(DecimalString(n));
  }

  // ---------------------------------------------------------------------------
  // coerce, shared by both enumerations
  // ---------------------------------------------------------------------------

  /** `int(item)` for an item that is not already a member. */
  function ToInt<S>(item: Item<S>): (r: Result<int, CoerceError>)
    requires !item.Member?
    ensures item.Number? ==> r == Success(item.n)
    ensures item.Text? ==> (r.Success? <==> ParseInt(item.text).Some?)
    ensures item.Text? && r.Success? ==> r.value == ParseInt(item.text).value
    ensures item.Text? && r.Failure? ==> r.error == NotAnInteger(item.text)
  {
    match item
    case Number(n) => Success(n)
    case Text(t) =>
      var v := ParseInt(t);
      if v.Some? then Success(v.value) else Failure(NotAnInteger(t))
  }

  /** `cls(int(item)) if not isinstance(item, cls) else item`, with `ofValue` the lookup `cls(v)`. */
  function Coerce<S>(item: Item<S>, ofValue: int -> Option<S>): (r: Result<S, CoerceError>)
    ensures item.Member? ==> r == Success(item.member)
    ensures item.Number? ==> r == (if ofValue(item.n).Some? then Success(ofValue(item.n).value)
                                   else Failure(NotAMember(item.n)))
    ensures r.Failure? && r.error.NotAnInteger? <==> item.Text? && ParseInt(item.text).None?
    ensures item.Text? && ParseInt(item.text).Some? ==>
      var v := ParseInt(item.text).value;
      r == (if ofValue(v).Some? then Success(ofValue(v).value) else Failure(NotAMember(v)))
  {
    if item.Member? then Success(item.member)
    else
      match ToInt(item)
      case Failure(e) => Failure(e)
      case Success(v) => if ofValue(v).Some? then Success(ofValue(v).value) else Failure(NotAMember(v))
  }

  /** A member's value, given as an int or as the text `str` prints for it, coerces to that member. */
  lemma CoercePrinted<S>(v: nat, ofValue: int -> Option<S>, m: S)
    requires ofValue(v) == Some(m)
    ensures Coerce(Number(v), ofValue) == Success(m)
    ensures Coerce(Text(DecimalString(v)), ofValue) == Success(m)
  {
    ParseDecimalString(v);
    assert ToInt<S>(Text(DecimalString(v))) == Success(v);
  }

  // ---------------------------------------------------------------------------
  // Device.Status
  // ---------------------------------------------------------------------------

  datatype DeviceStatus = DeviceNotActive | DeviceActive | Banned {
    function Value(): int {
      match this
      case DeviceNotActive => 0
      case DeviceActive => 1
      case Banned => 2
    }

    function Name(): string {
      match this
      case DeviceNotActive => "NOT_ACTIVE"
      case DeviceActive => "ACTIVE"
      case Banned => "BANNED"
    }

    /** `__str__`: the member's value as its single decimal digit, which `int(...)` reads back. */
    function ToString(): (s: string)
      ensures |s| == 1 && s[0] as int == '0' as int + Value()
      ensures AllDigits(s) && ParseInt(s) == Some(Value())
    {
      ParseDecimalString(Value());
      DecimalString(Value())
    }
  }

  /** `Device.Status(v)`: the member with value `v`, if any. */
  function DeviceStatusOf(v: int): (r: Option<DeviceStatus>)
    ensures r.Some? <==> 0 <= v <= 2
    ensures r.Some? ==> r.value.Value() == v
  {
    if v == 0 then Some(DeviceNotActive)
    else if v == 1 then Some(DeviceActive)
    else if v == 2 then Some(Banned)
    else None
  }

  /** `Device.Status.coerce`: succeeds exactly on a member, or on an int or a readable text of value 0..2. */
  function CoerceDeviceStatus(item: Item<DeviceStatus>): (r: Result<DeviceStatus, CoerceError>)
    ensures r.Success? <==>
      || item.Member?
      || (item.Number? && 0 <= item.n <= 2)
      || (item.Text? && ParseInt(item.text).Some? && 0 <= ParseInt(item.text).value <= 2)
    ensures r.Success? && !item.Member? ==> r.value.Value() == ToInt(item).value
  {
    Coerce(item, DeviceStatusOf)
  }

  /** `choices()`: every member with its name, in declaration (= value) order. */
  function DeviceStatusChoices(): (r: seq<(DeviceStatus, string)>)
    ensures |r| == 3
    ensures forall i :: 0 <= i < |r| ==> r[i].0.Value() == i && r[i].1 == r[i].0.Name()
    ensures forall s: DeviceStatus :: s.Value() < |r| && r[s.Value()].0 == s
  {
    var r := [(DeviceNotActive, "NOT_ACTIVE"), (DeviceActive, "ACTIVE"), (Banned, "BANNED")];
    assert forall s: DeviceStatus :: r[s.Value()].0 == s;
    r
  }

  /** Coercing a member's value, or its printed form, gives the member back; integers outside 0..2 fail. */
  lemma CoerceDeviceStatusRoundTrip(s: DeviceStatus, v: int)
    ensures CoerceDeviceStatus(Number(s.Value())) == Success(s)
    ensures CoerceDeviceStatus(Text(s.ToString())) == Success(s)
    ensures CoerceDeviceStatus(Number(v)).Success? <==> 0 <= v <= 2
  {
    assert DeviceStatusOf(s.Value()) == Some(s) by {
      match s
      case _ =>
    }
    CoercePrinted(s.Value(), DeviceStatusOf, s);
  }

  // ---------------------------------------------------------------------------
  // Subscriber.Status
  // ---------------------------------------------------------------------------

  datatype Status = NotActive | Active | Deleted {
    function Value(): int {
      match this
      case NotActive => 0
      case Active => 1
      case Deleted => 2
    }

    function Name(): string {
      match this
      case NotActive => "NOT_ACTIVE"
      case Active => "ACTIVE"
      case Deleted => "DELETED"
    }

    /** `__str__`: the member's value as its single decimal digit, which `int(...)` reads back. */
    function ToString(): (s: string)
      ensures |s| == 1 && s[0] as int == '0' as int + Value()
      ensures AllDigits(s) && ParseInt(s) == Some(Value())
    {
      ParseDecimalString(Value());
      DecimalString(Value())
    }
  }

  /** `Subscriber.Status(v)`: the member with value `v`, if any. */
  function StatusOf(v: int): (r: Option<Status>)
    ensures r.Some? <==> 0 <= v <= 2
    ensures r.Some? ==> r.value.Value() == v
  {
    if v == 0 then Some(NotActive)
    else if v == 1 then Some(Active)
    else if v == 2 then Some(Deleted)
    else None
  }

  /** `Subscriber.Status.coerce`: succeeds exactly on a member, or on an int or a readable text of value 0..2. */
  function CoerceStatus(item: Item<Status>): (r: Result<Status, CoerceError>)
    ensures r.Success? <==>
      || item.Member?
      || (item.Number? && 0 <= item.n <= 2)
      || (item.Text? && ParseInt(item.text).Some? && 0 <= ParseInt(item.text).value <= 2)
    ensures r.Success? && !item.Member? ==> r.value.Value() == ToInt(item).value
  {
    Coerce(item, StatusOf)
  }

  /** `choices()`: every member with its name, in declaration (= value) order. */
  function StatusChoices(): (r: seq<(Status, string)>)
    ensures |r| == 3
    ensures forall i :: 0 <= i < |r| ==> r[i].0.Value() == i && r[i].1 == r[i].0.Name()
    ensures forall s: Status :: s.Value() < |r| && r[s.Value()].0 == s
  {
    var r := [(NotActive, "NOT_ACTIVE"), (Active, "ACTIVE"), (Deleted, "DELETED")];
    assert forall s: Status :: r[s.Value()].0 == s;
    r
  }

  /** Coercing a member's value, or its printed form, gives the member back; integers outside 0..2 fail. */
  lemma CoerceStatusRoundTrip(s: Status, v: int)
    ensures CoerceStatus(Number(s.Value())) == Success(s)
    ensures CoerceStatus(Text(s.ToString())) == Success(s)
    ensures CoerceStatus(Number(v)).Success? <==> 0 <= v <= 2
  {
    assert StatusOf(s.Value()) == Some(s) by {
      match s
      case _ =>
    }
    CoercePrinted(s.Value(), StatusOf, s);
  }
}
