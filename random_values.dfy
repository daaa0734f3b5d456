/**
 * RandomValuePropertySource: a property source that answers every name beginning with
 * "random." with a freshly drawn value. The part after the prefix selects the draw: "int"
 * and "long" draw an unbounded number, "int" or "long" followed by a bracketed range draw
 * from that range, "uuid" gives a UUID string, and anything else the MD5 hex digest of 32
 * random bytes. The shared java.util.Random is an oracle: a fixed stream of raw outputs and a
 * count of how many have been consumed.
 */
module RandomValues {
  import opened Wrappers
  import opened Throwables
  import opened Text
  import PS = PropertySources
  import Env = Environments

  const PREFIX := "random."
  const ARRAY_INDEX_OUT_OF_BOUNDS := "java.lang.ArrayIndexOutOfBoundsException"
  const ARITHMETIC_EXCEPTION := "java.lang.ArithmeticException"
  const RANDOM_BYTES := 32

  /** What getRandomValue draws for the part of the name after "random.". */
  datatype Draw = AnyInt | AnyLong | IntRange(range: string) | LongRange(range: string) | Uuid | Bytes

  /** The values the source returns: an Integer, a Long or a String. */
  datatype Value = IntValue(i: int) | LongValue(l: int) | StringValue(s: string)

  /** getRange: the text between the character after `prefix` and the last character. */
  function GetRange(suffix: string, prefix: string): (r: Option<string>)
    ensures r.Some? ==> StartsWith(suffix, prefix) && |suffix| == |prefix| + |r.value| + 2
  {
    if StartsWith(suffix, prefix) && |suffix| > |prefix| + 1 then Some(suffix[|prefix| + 1..|suffix| - 1])
    else None
  }

  /** A range written with any opening and closing character is read back exactly. */
  lemma GetRangeOfBracketed(prefix: string, open: char, body: string, close: char)
    ensures GetRange(prefix + [open] + body + [close], prefix) == Some(body)
  {
    var s := prefix + [open] + body + [close];
    assert s[..|prefix|] == prefix;
    assert s[|prefix| + 1..|s| - 1] == body;
  }

  /** Whatever getRange returns is the body of some bracketed suffix. */
  lemma GetRangeIsBracketed(suffix: string, prefix: string)
    requires GetRange(suffix, prefix).Some?
    ensures exists open: char, close: char ::
      suffix == prefix + [open] + GetRange(suffix, prefix).value + [close]
  {
    var body := GetRange(suffix, prefix).value;
    var open, close := suffix[|prefix|], suffix[|suffix| - 1];
    assert suffix == prefix + [open] + body + [close];
  }

  /** getRandomValue's dispatch: exact "int"/"long" first, then int and long ranges, then "uuid". */
  function DrawFor(suffix: string): Draw {
    if suffix == "int" then AnyInt
    else if suffix == "long" then AnyLong
    else if GetRange(suffix, "int").Some? then IntRange(GetRange(suffix, "int").value)
    else if GetRange(suffix, "long").Some? then LongRange(GetRange(suffix, "long").value)
    else if suffix == "uuid" then Uuid
    else Bytes
  }

  /** getProperty's guard: names without the "random." prefix get no value. */
  function Classify(name: string): Option<Draw> {
    if StartsWith(name, PREFIX) then Some(DrawFor(name[|PREFIX|..])) else None
  }

  /** The fixed suffixes. */
  lemma ClassifyKeywords()
    ensures Classify(PREFIX + "int") == Some(AnyInt)
    ensures Classify(PREFIX + "long") == Some(AnyLong)
    ensures Classify(PREFIX + "uuid") == Some(Uuid)
  {
    StartsWithAppend(PREFIX, "int");
    StartsWithAppend(PREFIX, "long");
    StartsWithAppend(PREFIX, "uuid");
    assert (PREFIX + "int")[|PREFIX|..] == "int";
    assert (PREFIX + "long")[|PREFIX|..] == "long";
    assert (PREFIX + "uuid")[|PREFIX|..] == "uuid";
  }

  /** A name without the prefix is not answered; a name with it always is. */
  lemma ClassifyPrefix(name: string)
    ensures Classify(name).Some? <==> StartsWith(name, PREFIX)
  {
  }

  /** `random.int` with a bracketed range draws from that int range. */
  lemma ClassifyIntRange(open: char, body: string, close: char)
    ensures Classify(PREFIX + "int" + [open] + body + [close]) == Some(IntRange(body))
  {
    var suffix := "int" + [open] + body + [close];
    assert PREFIX + "int" + [open] + body + [close] == PREFIX + suffix;
    StartsWithAppend(PREFIX, suffix);
    assert (PREFIX + suffix)[|PREFIX|..] == suffix;
    GetRangeOfBracketed("int", open, body, close);
  }

  /** `random.long` with a bracketed range draws from that long range. */
  lemma ClassifyLongRange(open: char, body: string, close: char)
    ensures Classify(PREFIX + "long" + [open] + body + [close]) == Some(LongRange(body))
  {
    var suffix := "long" + [open] + body + [close];
    assert PREFIX + "long" + [open] + body + [close] == PREFIX + suffix;
    StartsWithAppend(PREFIX, suffix);
    assert (PREFIX + suffix)[|PREFIX|..] == suffix;
    assert suffix[0] == 'l';
    assert !StartsWith(suffix, "int");
    GetRangeOfBracketed("long", open, body, close);
  }

  // ---------------------------------------------------------------------------------------
  // Ranges

  /** NumberFormatException.forInputString. */
  function NumberFormat(s: string): Throwable {
    NewRuntime(NUMBER_FORMAT_EXCEPTION, Some("For input string: \"" + s + "\""), [])
  }

  /** `tokens[0]` on an empty array. */
  function NoToken(): Throwable {
    NewRuntime(ARRAY_INDEX_OUT_OF_BOUNDS, Some("0"), [])
  }

  /** Random.nextInt(bound) with a bound that is not positive. */
  function BadBound(): Throwable {
    NewIllegalArgument("bound must be positive")
  }

  /** `%` by zero. */
  function DivisionByZero(): Throwable {
    NewRuntime(ARITHMETIC_EXCEPTION, Some("/ by zero"), [])
  }

  function Abs(x: int): nat {
    if x < 0 then -x else x
  }

  /** Java's `%`: truncates toward zero, so the remainder carries the dividend's sign. */
  function JavaRem(x: int, m: int): (r: int)
    requires m != 0
    ensures Abs(r) < Abs(m) && Abs(r) == Abs(x) % Abs(m)
  {
    if x >= 0 then x % Abs(m) else -((-x) % Abs(m))
  }

  /**
   * getNextIntInRange, given the raw output the generator yields next: the draw is
   * `raw % bound` for Random.nextInt(bound). Int arithmetic wraps around.
   */
  function IntRangeValue(range: string, raw: int): Result<int, Throwable> {
    var tokens := CommaDelimitedList(Some(range));
    if |tokens| == 0 then Failure(NoToken())
    else
      match ParseInteger(tokens[0], INT_MIN, INT_MAX)
      case None => Failure(NumberFormat(tokens[0]))
      case Some(start) =>
        if |tokens| == 1 then
          if start <= 0 then Failure(BadBound()) else Success(raw % start)
        else
          match ParseInteger(tokens[1], INT_MIN, INT_MAX)
          case None => Failure(NumberFormat(tokens[1]))
          case Some(end) =>
            var bound := WrapInt(end - start);
            if bound <= 0 then Failure(BadBound()) else Success(WrapInt(start + raw % bound))
  }

  /** getNextLongInRange, given the raw output the generator yields next. */
  function LongRangeValue(range: string, raw: int): Result<int, Throwable> {
    var tokens := CommaDelimitedList(Some(range));
    if |tokens| == 0 then Failure(NoToken())
    else if |tokens| == 1 then
      match ParseInteger(tokens[0], LONG_MIN, LONG_MAX)
      case None => Failure(NumberFormat(tokens[0]))
      case Some(n) =>
        if n == 0 then Failure(DivisionByZero()) else Success(Abs(JavaRem(WrapLong(raw), n)))
    else
      match ParseInteger(tokens[0], LONG_MIN, LONG_MAX)
      case None => Failure(NumberFormat(tokens[0]))
      case Some(lower) =>
        match ParseInteger(tokens[1], LONG_MIN, LONG_MAX)
        case None => Failure(NumberFormat(tokens[1]))
        case Some(upper) =>
          var width := WrapLong(upper - lower);
          if width == 0 then Failure(DivisionByZero())
          else Success(WrapLong(lower + Abs(JavaRem(WrapLong(raw), width))))
  }

  /**
   * How many raw outputs a range draw consumes: an int range draws once it has a valid
   * bound; a single-token long range draws before parsing its token; a two-token long range
   * draws once both tokens parse.
   */
  function IntRangeDraws(range: string, raw: int): nat {
    if IntRangeValue(range, raw).Success? then 1 else 0
  }

  function LongRangeDraws(range: string): nat {
    var tokens := CommaDelimitedList(Some(range));
    if |tokens| == 0 then 0
    else if |tokens| == 1 then 1
    else if ParseInteger(tokens[0], LONG_MIN, LONG_MAX).Some? && ParseInteger(tokens[1], LONG_MIN, LONG_MAX).Some? then 1
    else 0
  }

  lemma NoCommaInNumber(i: int)
    ensures ',' !in IntToString(i) && IntToString(i) != ""
  {
    var s := IntToString(i);
    if i < 0 {
      var n := NatToString(-i);
      assert s == "-" + n;
      forall k | 0 <= k < |s| ensures s[k] != ',' {
        if k > 0 { assert s[k] == n[k - 1] && IsDigit(n[k - 1]); }
      }
    } else {
      forall k | 0 <= k < |s| ensures s[k] != ',' {
        assert IsDigit(s[k]);
      }
    }
  }

  /** Two numbers written "a,b" split into their two tokens. */
  lemma TwoTokens(a: int, b: int)
    ensures CommaDelimitedList(Some(IntToString(a) + "," + IntToString(b))) == [IntToString(a), IntToString(b)]
  {
    NoCommaInNumber(a);
    NoCommaInNumber(b);
    var parts := [IntToString(a), IntToString(b)];
    assert JoinWith(parts, ',') == IntToString(a) + "," + IntToString(b) by {
      assert parts[1..] == [IntToString(b)];
    }
    SplitJoin(parts, ',');
  }

  /** One number is one token. */
  lemma OneToken(n: int)
    ensures CommaDelimitedList(Some(IntToString(n))) == [IntToString(n)]
  {
    NoCommaInNumber(n);
    SplitJoin([IntToString(n)], ',');
  }

  /** `random.int[a,b]` with a < b (and b - a within int range) gives a value in [a, b). */
  lemma IntRangeBetween(a: int, b: int, raw: int)
    requires INT_MIN <= a < b <= INT_MAX && b - a <= INT_MAX
    ensures var r := IntRangeValue(IntToString(a) + "," + IntToString(b), raw);
      r.Success? && a <= r.value < b
  {
    TwoTokens(a, b);
    ParseIntToString(a, INT_MIN, INT_MAX);
    ParseIntToString(b, INT_MIN, INT_MAX);
  }

  /** `random.int[n]` with n > 0 gives a value in [0, n). */
  lemma IntRangeBelow(n: int, raw: int)
    requires 0 < n <= INT_MAX
    ensures var r := IntRangeValue(IntToString(n), raw);
      r.Success? && 0 <= r.value < n
  {
    OneToken(n);
    ParseIntToString(n, INT_MIN, INT_MAX);
  }

  /** `random.int[a,b]` with b <= a asks Random.nextInt for a bound that is not positive. */
  lemma IntRangeEmpty(a: int, b: int, raw: int)
    requires INT_MIN <= b <= a <= INT_MAX && a - b <= INT_MAX
    ensures IntRangeValue(IntToString(a) + "," + IntToString(b), raw) == Failure(BadBound())
  {
    TwoTokens(a, b);
    ParseIntToString(a, INT_MIN, INT_MAX);
    ParseIntToString(b, INT_MIN, INT_MAX);
  }

  /** `random.long[a,b]` with a < b (and b - a within long range) gives a value in [a, b). */
  lemma LongRangeBetween(a: int, b: int, raw: int)
    requires LONG_MIN <= a < b <= LONG_MAX && b - a <= LONG_MAX
    ensures var r := LongRangeValue(IntToString(a) + "," + IntToString(b), raw);
      r.Success? && a <= r.value < b
  {
    TwoTokens(a, b);
    ParseIntToString(a, LONG_MIN, LONG_MAX);
    ParseIntToString(b, LONG_MIN, LONG_MAX);
    var x := Abs(JavaRem(WrapLong(raw), b - a));
    assert x < b - a;
  }

  /** `random.long[n]` with n > 0 gives a value in [0, n); n = 0 divides by zero. */
  lemma LongRangeBelow(n: int, raw: int)
    requires 0 <= n <= LONG_MAX
    ensures var r := LongRangeValue(IntToString(n), raw);
      (n > 0 ==> r.Success? && 0 <= r.value < n) && (n == 0 ==> r == Failure(DivisionByZero()))
  {
    OneToken(n);
    ParseIntToString(n, LONG_MIN, LONG_MAX);
  }

  /** An empty range has no first token. */
  lemma EmptyRange(raw: int)
    ensures IntRangeValue("", raw) == Failure(NoToken()) && LongRangeValue("", raw) == Failure(NoToken())
  {
  }

  // ---------------------------------------------------------------------------------------
  // The draws

  /** A Java byte from a raw output. */
  function WrapByte(x: int): (b: int)
    ensures -128 <= b <= 127
  {
    (x + 128) % 256 - 128
  }

  /** The bytes Random.nextBytes writes into an array of length n, from raw output `at` on. */
  function BytesFrom(outputs: nat -> int, at: nat, n: nat): (bs: seq<int>)
    ensures |bs| == n && forall i :: 0 <= i < n ==> bs[i] == WrapByte(outputs(at + i))
  {
    seq(n, i requires 0 <= i < n => WrapByte(outputs(at + i)))
  }

  /**
   * The value getRandomValue returns for a draw, and the number of raw outputs it consumes,
   * when the generator's next output is `outputs(at)`. `uuid` is what UUID.randomUUID()
   * yields and `md5Hex` is DigestUtils.md5DigestAsHex.
   */
  function Generate(d: Draw, outputs: nat -> int, at: nat, uuid: string, md5Hex: seq<int> -> string): (Result<Value, Throwable>, nat) {
    match d
    case AnyInt => (Success(IntValue(WrapInt(outputs(at)))), 1)
    case AnyLong => (Success(LongValue(WrapLong(outputs(at)))), 1)
    case IntRange(range) =>
      var r := IntRangeValue(range, outputs(at));
      (if r.Success? then Success(IntValue(r.value)) else Failure(r.error), IntRangeDraws(range, outputs(at)))
    case LongRange(range) =>
      var r := LongRangeValue(range, outputs(at));
      (if r.Success? then Success(LongValue(r.value)) else Failure(r.error), LongRangeDraws(range))
    case Uuid => (Success(StringValue(uuid)), 0)
    case Bytes => (Success(StringValue(md5Hex(BytesFrom(outputs, at, RANDOM_BYTES)))), RANDOM_BYTES)
  }

  /** The unbounded draws give Java int and long values; a failed draw raises, it never yields. */
  lemma GenerateBounds(d: Draw, outputs: nat -> int, at: nat, uuid: string, md5Hex: seq<int> -> string)
    ensures var g := Generate(d, outputs, at, uuid, md5Hex);
      (d == AnyInt ==> g.0.Success? && g.0.value.IntValue? && INT_MIN <= g.0.value.i <= INT_MAX)
      && (d == AnyLong ==> g.0.Success? && g.0.value.LongValue? && LONG_MIN <= g.0.value.l <= LONG_MAX)
      && (d.IntRange? && g.0.Success? ==> g.0.value.IntValue? && g.1 == 1)
      && (d.LongRange? && g.0.Success? ==> g.0.value.LongValue? && g.1 == 1)
      && (d == Uuid || d == Bytes ==> g.0.Success? && g.0.value.StringValue?)
  {
    if d.LongRange? && Generate(d, outputs, at, uuid, md5Hex).0.Success? {
      var tokens := CommaDelimitedList(Some(d.range));
      assert |tokens| > 0;
    }
  }

  /** java.util.Random: a stream of raw outputs and how many have been used. */
  class Random {
    const outputs: nat -> int
    var drawn: nat

    constructor(outputs: nat -> int)
      ensures this.outputs == outputs && drawn == 0
    {
      this.outputs := outputs;
      drawn := 0;
    }

    /** nextInt(). */
    method NextInt() returns (v: int)
      modifies this
      ensures drawn == old(drawn) + 1 && v == WrapInt(outputs(old(drawn)))
    {
      v := WrapInt(outputs(drawn));
      drawn := drawn + 1;
    }

    /** nextInt(bound): in [0, bound); a bound that is not positive is refused before drawing. */
    method NextIntBelow(bound: int) returns (r: Result<int, Throwable>)
      modifies this
      ensures bound <= 0 ==> r == Failure(BadBound()) && drawn == old(drawn)
      ensures bound > 0 ==> r == Success(outputs(old(drawn)) % bound) && drawn == old(drawn) + 1
      ensures r.Success? ==> 0 <= r.value < bound
    {
      if bound <= 0 {
        return Failure(BadBound());
      }
      r := Success(outputs(drawn) % bound);
      drawn := drawn + 1;
    }

    /** nextLong(). */
    method NextLong() returns (v: int)
      modifies this
      ensures drawn == old(drawn) + 1 && v == WrapLong(outputs(old(drawn)))
    {
      v := WrapLong(outputs(drawn));
      drawn := drawn + 1;
    }

    /** nextBytes: fills the array in place, one raw output per byte. */
    method NextBytes(bytes: array<int>)
      modifies this, bytes
      ensures drawn == old(drawn) + bytes.Length
      ensures bytes[..] == BytesFrom(outputs, old(drawn), bytes.Length)
    {
      var i := 0;
      while i < bytes.Length
        invariant 0 <= i <= bytes.Length
        invariant drawn == old(drawn) + i
        invariant forall k :: 0 <= k < i ==> bytes[k] == WrapByte(outputs(old(drawn) + k))
      {
        bytes[i] := WrapByte(outputs(drawn));
        drawn := drawn + 1;
        i := i + 1;
      }
    }
  }

  /** The property source. */
  class RandomValueSource {
    const name: string
    const random: Random
    /** DigestUtils.md5DigestAsHex. */
    const md5Hex: seq<int> -> string

    constructor(name: string, random: Random, md5Hex: seq<int> -> string)
      ensures this.name == name && this.random == random && this.md5Hex == md5Hex
    {
      this.name := name;
      this.random := random;
      this.md5Hex := md5Hex;
    }

    /**
     * getProperty: no value for a name without the prefix, otherwise the value of the draw
     * the rest of the name selects. `uuid` is the value UUID.randomUUID() would return.
     */
    method GetProperty(property: string, uuid: string) returns (r: Result<Option<Value>, Throwable>)
      modifies random
      ensures Classify(property).None? ==> r == Success(None) && random.drawn == old(random.drawn)
      ensures Classify(property).Some? ==>
        var g := Generate(Classify(property).value, random.outputs, old(random.drawn), uuid, md5Hex);
        random.drawn == old(random.drawn) + g.1
        && r == (if g.0.Success? then Success(Some(g.0.value)) else Failure(g.0.error))
    {
      if !StartsWith(property, PREFIX) {
        return Success(None);
      }
      var value := GetRandomValue(property[|PREFIX|..], uuid);
      r := if value.Success? then Success(Some(value.value)) else Failure(value.error);
    }

    /** getRandomValue. */
    method GetRandomValue(suffix: string, uuid: string) returns (r: Result<Value, Throwable>)
      modifies random
      ensures var g := Generate(DrawFor(suffix), random.outputs, old(random.drawn), uuid, md5Hex);
        r == g.0 && random.drawn == old(random.drawn) + g.1
    {
      if suffix == "int" {
        var v := random.NextInt();
        return Success(IntValue(v));
      }
      if suffix == "long" {
        var v := random.NextLong();
        return Success(LongValue(v));
      }
      var range := GetRange(suffix, "int");
      if range.Some? {
        var v := GetNextIntInRange(range.value);
        return if v.Success? then Success(IntValue(v.value)) else Failure(v.error);
      }
      range := GetRange(suffix, "long");
      if range.Some? {
        var v := GetNextLongInRange(range.value);
        return if v.Success? then Success(LongValue(v.value)) else Failure(v.error);
      }
      if suffix == "uuid" {
        return Success(StringValue(uuid));
      }
      var hex := GetRandomBytes();
      return Success(StringValue(hex));
    }

    /** getNextIntInRange. */
    method GetNextIntInRange(range: string) returns (r: Result<int, Throwable>)
      modifies random
      ensures r == IntRangeValue(range, random.outputs(old(random.drawn)))
      ensures random.drawn == old(random.drawn) + IntRangeDraws(range, random.outputs(old(random.drawn)))
    {
      var tokens := CommaDelimitedList(Some(range));
      if |tokens| == 0 {
        return Failure(NoToken());
      }
      var start := ParseInteger(tokens[0], INT_MIN, INT_MAX);
      if start.None? {
        return Failure(NumberFormat(tokens[0]));
      }
      if |tokens| == 1 {
        r := random.NextIntBelow(start.value);
        return r;
      }
      var end := ParseInteger(tokens[1], INT_MIN, INT_MAX);
      if end.None? {
        return Failure(NumberFormat(tokens[1]));
      }
      var v := random.NextIntBelow(WrapInt(end.value - start.value));
      if v.Failure? {
        return v;
      }
      return Success(WrapInt(start.value + v.value));
    }

    /** getNextLongInRange. */
    method GetNextLongInRange(range: string) returns (r: Result<int, Throwable>)
      modifies random
      ensures r == LongRangeValue(range, random.outputs(old(random.drawn)))
      ensures random.drawn == old(random.drawn) + LongRangeDraws(range)
    {
      var tokens := CommaDelimitedList(Some(range));
      if |tokens| == 0 {
        return Failure(NoToken());
      }
      if |tokens| == 1 {
        var x := random.NextLong();
        var n := ParseInteger(tokens[0], LONG_MIN, LONG_MAX);
        if n.None? {
          return Failure(NumberFormat(tokens[0]));
        }
        if n.value == 0 {
          return Failure(DivisionByZero());
        }
        return Success(Abs(JavaRem(x, n.value)));
      }
      var lower := ParseInteger(tokens[0], LONG_MIN, LONG_MAX);
      if lower.None? {
        return Failure(NumberFormat(tokens[0]));
      }
      var upper := ParseInteger(tokens[1], LONG_MIN, LONG_MAX);
      if upper.None? {
        return Failure(NumberFormat(tokens[1]));
      }
      var width := WrapLong(upper.value - lower.value);
      var x := random.NextLong();
      if width == 0 {
        return Failure(DivisionByZero());
      }
      return Success(WrapLong(lower.value + Abs(JavaRem(x, width))));
    }

    /** getRandomBytes: 32 random bytes, as the hex of their MD5 digest. */
    method GetRandomBytes() returns (hex: string)
      modifies random
      ensures random.drawn == old(random.drawn) + RANDOM_BYTES
      ensures hex == md5Hex(BytesFrom(random.outputs, old(random.drawn), RANDOM_BYTES))
    {
      var bytes := new int[RANDOM_BYTES];
      random.NextBytes(bytes);
      hex := md5Hex(bytes[..]);
    }
  }

  /** addToEnvironment: the random source goes immediately after `systemEnvironment`. */
  method AddToEnvironment(env: Env.Environment) returns (r: Option<Throwable>)
    modifies env
    ensures env.active == old(env.active) && env.defaults == old(env.defaults)
    ensures PS.AddAfter(old(env.sources), PS.SYSTEM_ENVIRONMENT, PS.RandomSource(PS.RANDOM)).Success? ==>
      r == None && env.sources == PS.AddAfter(old(env.sources), PS.SYSTEM_ENVIRONMENT, PS.RandomSource(PS.RANDOM)).value
    ensures PS.AddAfter(old(env.sources), PS.SYSTEM_ENVIRONMENT, PS.RandomSource(PS.RANDOM)).Failure? ==>
      r.Some? && env.sources == PS.AfterFailedRelativeAdd(old(env.sources), PS.SYSTEM_ENVIRONMENT, PS.RandomSource(PS.RANDOM))
  {
    r := env.AddAfter(PS.SYSTEM_ENVIRONMENT, PS.RandomSource(PS.RANDOM));
  }

  /**
   * Where addToEnvironment puts the source: it succeeds exactly when the list has a
   * `systemEnvironment` source, and the random source then follows it directly.
   */
  lemma AddToEnvironmentPlacement(ss: seq<PS.PropertySource>)
    requires PS.UniqueNames(ss)
    ensures var r := PS.AddAfter(ss, PS.SYSTEM_ENVIRONMENT, PS.RandomSource(PS.RANDOM));
      (r.Success? <==> PS.Named(ss, PS.SYSTEM_ENVIRONMENT))
      && (r.Success? ==> PS.UniqueNames(r.value))
      && (r.Success? ==> exists i :: 0 < i < |r.value| && r.value[i] == PS.RandomSource(PS.RANDOM) && PS.Name(r.value[i - 1]) == PS.SYSTEM_ENVIRONMENT)
  {
    PS.AddAfterSpec(ss, PS.SYSTEM_ENVIRONMENT, PS.RandomSource(PS.RANDOM));
  }

  /**
   * Without a `systemEnvironment` source, addToEnvironment fails after the list has already
   * lost any `random` source; every other source stays.
   */
  lemma AddToEnvironmentWithoutSystemEnvironment(ss: seq<PS.PropertySource>)
    requires PS.UniqueNames(ss) && !PS.Named(ss, PS.SYSTEM_ENVIRONMENT)
    ensures var r := PS.AfterFailedRelativeAdd(ss, PS.SYSTEM_ENVIRONMENT, PS.RandomSource(PS.RANDOM));
      PS.AddAfter(ss, PS.SYSTEM_ENVIRONMENT, PS.RandomSource(PS.RANDOM)) == Failure(PS.NoSuchSource(PS.SYSTEM_ENVIRONMENT))
      && !PS.Named(r, PS.RANDOM)
      && (forall k :: 0 <= k < |ss| && PS.Name(ss[k]) != PS.RANDOM ==> ss[k] in r)
      && (PS.Named(ss, PS.RANDOM) ==> |r| == |ss| - 1)
  {
    PS.FailedRelativeAddSpec(ss, PS.SYSTEM_ENVIRONMENT, PS.RandomSource(PS.RANDOM));
  }
}
