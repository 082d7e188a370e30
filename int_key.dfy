/** The integer key (IntKey.java): a boxed `Integer` that serialises as
    its decimal text (`toString`, then the text's bytes) and deserialises
    with `Integer.parseInt`. Text and bytes are taken to be ASCII: a
    character's byte is its code. */
module Keys {
  import opened Jvm

  predicate IsDigit(c: char) {
    '0' <= c <= '9'
  }

  predicate AllDigits(s: string) {
    forall i :: 0 <= i < |s| ==> IsDigit(s[i])
  }

  function DigitChar(d: nat): (c: char)
    requires d < 10
  {
    ('0' as int + d) as char
  }

  /** The decimal digits of `n`, most significant first, without leading zeros. */
  function Digits(n: nat): (s: string)
    ensures |s| >= 1 && AllDigits(s)
  {
    if n < 10 then [DigitChar(n)] else Digits(n / 10) + [DigitChar(n % 10)]
  }

  /** `Integer.toString`: a minus sign for negative values, then the digits
      of the magnitude. */
  function ToDecimal(n: int): (s: string)
    ensures |s| >= 1
    ensures n < 0 <==> s[0] == '-'
  {
    if n < 0 then "-" + Digits(-n) else Digits(n)
  }

  /** The number a string of decimal digits denotes. */
  function DigitsValue(s: string): nat
    requires AllDigits(s)
  {
    if s == [] then 0 else DigitsValue(s[..|s| - 1]) * 10 + (s[|s| - 1] as int - '0' as int)
  }

  /** `Integer.parseInt` on ASCII text: an optional `-` or `+`, then one or
      more decimal digits, denoting a value within `int`; anything else is
      a NumberFormatException, shown here as None. */
  function ParseInt(s: string): (r: Option<int>)
    ensures r.Some? ==> IsInt32(r.value)
    ensures r.Some? ==> |s| >= 1 && (AllDigits(s) || ((s[0] == '-' || s[0] == '+') && |s| >= 2 && AllDigits(s[1..])))
  {
    if |s| >= 2 && (s[0] == '-' || s[0] == '+') && AllDigits(s[1..]) then
      var v: int := if s[0] == '-' then -(DigitsValue(s[1..]) as int) else DigitsValue(s[1..]);
      if IsInt32(v) then Some(v) else None
    else if |s| >= 1 && AllDigits(s) && DigitsValue(s) <= INT_MAX then
      Some(DigitsValue(s))
    else
      None
  }

  /** `String.getBytes` on ASCII text. */
  function AsciiBytes(s: string): (b: seq<Byte>)
    requires forall i :: 0 <= i < |s| ==> s[i] as int < 128
    ensures |b| == |s|
  {
    seq(|s|, i requires 0 <= i < |s| => s[i] as int)
  }

  /** `new String(bytes)` on ASCII bytes. */
  function AsciiText(b: seq<Byte>): (s: string)
    ensures |s| == |b|
  {
    seq(|b|, i requires 0 <= i < |b| => b[i] as char)
  }

  /** The bytes `getBytes` produces for the key value `n`. */
  function Encode(n: int): seq<Byte>
  {
    var s := ToDecimal(n);
    assert forall i :: 0 <= i < |s| ==> s[i] == '-' || IsDigit(s[i]);
    AsciiBytes(s)
  }

  /** What `fromBytes` makes of `bytes`: the parsed value, or None when
      `parseInt` throws. */
  function Decode(bytes: seq<Byte>): Option<int> {
    ParseInt(AsciiText(bytes))
  }

  lemma {:induction false} DigitsValueOfDigits(n: nat)
    ensures DigitsValue(Digits(n)) == n
  {
    if n >= 10 {
      DigitsValueOfDigits(n / 10);
      var s := Digits(n / 10) + [DigitChar(n % 10)];
      assert s[..|s| - 1] == Digits(n / 10);
    }
  }

  /** Decimal text round-trips: parsing `toString(n)` gives `n` back for
      every `int`, including negatives and the minimum value, whose
      magnitude is not itself an `int`. */
  lemma DecimalRoundTrip(n: int)
    requires IsInt32(n)
    ensures ParseInt(ToDecimal(n)) == Some(n)
  {
    var s := ToDecimal(n);
    if n < 0 {
      assert s[1..] == Digits(-n);
      DigitsValueOfDigits(-n);
    } else {
      DigitsValueOfDigits(n);
      assert !(s[0] == '-' || s[0] == '+');
    }
  }

  /** The bytes of a key decode to the same key. */
  lemma BytesRoundTrip(n: int)
    requires IsInt32(n)
    ensures Decode(Encode(n)) == Some(n)
  {
    var s := ToDecimal(n);
    assert AsciiText(Encode(n)) == s;
    DecimalRoundTrip(n);
  }

  /** The digits of `INT_MIN`'s magnitude, one more than `INT_MAX`. */
  lemma DigitsOfIntMinMagnitude()
    ensures DigitsValue("2147483648") == INT_MAX + 1
  {
    assert "2147483648"[..9] == "214748364";
    assert "214748364"[..8] == "21474836";
    assert "21474836"[..7] == "2147483";
    assert "2147483"[..6] == "214748";
    assert "214748"[..5] == "21474";
    assert "21474"[..4] == "2147";
    assert "2147"[..3] == "214";
    assert "214"[..2] == "21";
    assert "21"[..1] == "2";
  }

  /** Edge cases of `parseInt`: empty text, a lone sign, a stray character
      and one more than the largest `int` are refused; a leading `+` and
      the smallest `int` are accepted. */
  lemma ParseIntExamples()
    ensures ParseInt("") == None
    ensures ParseInt("-") == None
    ensures ParseInt("12a") == None
    ensures ParseInt("+7") == Some(7)
    ensures ParseInt("-2147483648") == Some(INT_MIN)
    ensures ParseInt("2147483648") == None
  {
    assert !AllDigits("12a") by { assert !IsDigit("12a"[2]); }
    assert DigitsValue("7") == 7;
    assert "+7"[1..] == "7";
    assert "-2147483648"[1..] == "2147483648";
    DigitsOfIntMinMagnitude();
  }

  /** An object handed to `equals`: null, an IntKey, or any other object. */
  datatype Obj = Null | AnIntKey(ref: IntKey) | NotAnIntKey

  class IntKey {
    /** The wrapped `Integer`; None is a null reference. */
    var key: Option<int>

    ghost predicate Valid()
      reads this
    {
      key.Some? ==> IsInt32(key.value)
    }

    /** `IntKey()` leaves the key null. */
    constructor Unset()
      ensures key == None
    {
      key := None;
    }

    /** `IntKey(int)`. */
    constructor (k: int)
      requires IsInt32(k)
      ensures Valid() && key == Some(k)
    {
      key := Some(k);
    }

    /** `IntKey(Integer)`: stores the reference as given, null included. */
    constructor Boxed(k: Option<int>)
      requires k.Some? ==> IsInt32(k.value)
      ensures Valid() && key == k
    {
      key := k;
    }

    /** `IntKey(byte[])`: a fresh key followed by `fromBytes`; the Java
        constructor throws when `fromBytes` does. */
    static method OfBytes(data: seq<Byte>) returns (r: Result<IntKey>)
      ensures Decode(data).None? <==> r.Throws?
      ensures r.Throws? ==> r.error == NumberFormatException
      ensures r.Ok? ==> fresh(r.value) && r.value.Valid() && r.value.key == Decode(data)
    {
      var k := new IntKey.Unset();
      var o := k.FromBytes(data);
      if o.Raised? {
        return Throws(o.error);
      }
      r := Ok(k);
    }

    /** `fromBytes`: parse the bytes as decimal text and store the value.
        A parse failure is an unchecked NumberFormatException, thrown
        before the field is assigned. */
    method FromBytes(bytes: seq<Byte>) returns (o: Outcome)
      modifies this
      ensures Decode(bytes).Some? ==> o == Done && key == Decode(bytes)
      ensures Decode(bytes).None? ==> o == Raised(NumberFormatException) && key == old(key)
      ensures old(Valid()) ==> Valid()
    {
      var parsed := Decode(bytes);
      if parsed.None? {
        return Raised(NumberFormatException);
      }
      key := parsed;
      o := Done;
    }

    /** `getBytes`: the decimal text of the key; a null key throws. */
    function GetBytes(): (r: Result<seq<Byte>>)
      reads this
      requires Valid()
      ensures r.Throws? <==> key.None?
      ensures r.Throws? ==> r.error == NullPointerException
      ensures r.Ok? ==> Decode(r.value) == key
    {
      if key.None? then Throws(NullPointerException)
      else
        BytesRoundTrip(key.value);
        Ok(Encode(key.value))
    }

    /** `hashCode`: the wrapped value itself; a null key throws. */
    function HashCode(): (r: Result<int>)
      reads this
      ensures r.Throws? <==> key.None?
      ensures r.Throws? ==> r.error == NullPointerException
      ensures r.Ok? ==> Some(r.value) == key
    {
      if key.None? then Throws(NullPointerException) else Ok(key.value)
    }

    /** `equals`: casts its argument to IntKey, then compares the wrapped
        values, the argument's first. A non-IntKey argument fails the cast,
        and a null argument or a null key on either side throws. */
    function Equals(other: Obj): (r: Result<bool>)
      reads this, if other.AnIntKey? then {other.ref} else {}
      ensures other.NotAnIntKey? ==> r == Throws(ClassCastException)
      ensures other.Null? ==> r == Throws(NullPointerException)
      ensures other.AnIntKey? && (other.ref.key.None? || key.None?) ==> r == Throws(NullPointerException)
      ensures r.Ok? <==> other.AnIntKey? && other.ref.key.Some? && key.Some?
      ensures r.Ok? ==> (r.value <==> other.ref.key == key)
    {
      match other
      case NotAnIntKey => Throws(ClassCastException)
      case Null => Throws(NullPointerException)
      case AnIntKey(that) =>
        if that.key.None? || key.None? then Throws(NullPointerException)
        else Ok(that.key.value == key.value)
    }
  }

  /** Equality is reflexive on keys that hold a value. */
  lemma EqualsReflexive(a: IntKey)
    requires a.key.Some?
    ensures a.Equals(AnIntKey(a)) == Ok(true)
  {
  }

  /** Equality is symmetric: both sides throw alike or agree. */
  lemma EqualsSymmetric(a: IntKey, b: IntKey)
    ensures a.Equals(AnIntKey(b)) == b.Equals(AnIntKey(a))
  {
  }

  /** Equal keys hash equally, and keys whose hashes differ are unequal. */
  lemma EqualKeysHashEqually(a: IntKey, b: IntKey)
    requires a.Equals(AnIntKey(b)) == Ok(true)
    ensures a.HashCode().Ok? && a.HashCode() == b.HashCode()
  {
  }

  /** A key written with `getBytes` and read back with `IntKey(byte[])`
      wraps the same value, for every `int`. */
  method KeyRoundTrip(k: IntKey) returns (copy: IntKey)
    requires k.Valid() && k.key.Some?
    ensures copy.key == k.key
    ensures fresh(copy)
  {
    var bytes := k.GetBytes();
    var r := IntKey.OfBytes(bytes.value);
    copy := r.value;
  }
}
