/**
 * The query handlers of queries.c that read the catalog: the user or driver
 * profile (query 1) and the top drivers by score (query 2). Each handler is a
 * pure function from the catalog and the query's argument text to the lines it
 * writes; the debug messages written only under DEBUG are no lines at all.
 *
 * The argument text is classified the way the handlers do it, with
 * strtol(text, &rest, 10) followed by the test *rest != '\0'. strtol is modelled
 * here on the C standard's description of it.
 */
module Queries {
  import opened Entities
  import opened CatalogStore

  /** One line of query output. A profile line carries the birthdate from which
    * the age is printed. */
  datatype Line =
    | ProfileLine(name: string, gender: Gender, birthdate: Date, averageScore: real, rides: nat, total: int)
    | RankLine(id: int, name: string, averageScore: real)

  // ---------------------------------------------------------------------------
  // strtol(text, &rest, 10) and the (int) cast
  // ---------------------------------------------------------------------------

  const LongMin: int := -0x8000_0000_0000_0000
  const LongMax: int := 0x7fff_ffff_ffff_ffff
  const IntMin: int := -0x8000_0000
  const IntMax: int := 0x7fff_ffff

  /** isspace in the C locale: blank, tab, newline, vertical tab, form feed, return. */
  predicate IsSpace(c: char)
  {
    c == ' ' || '\t' <= c <= '\r'
  }

  predicate IsDigit(c: char)
  {
    '0' <= c <= '9'
  }

  predicate AllSpaces(s: string)
  {
    forall k :: 0 <= k < |s| ==> IsSpace(s[k])
  }

  predicate AllDigits(s: string)
  {
    forall k :: 0 <= k < |s| ==> IsDigit(s[k])
  }

  /** The first index at or after `i` that does not hold a space. */
  function SkipSpaces(s: string, i: nat): (j: nat)
    requires i <= |s|
    ensures i <= j <= |s| && AllSpaces(s[i..j])
    ensures j < |s| ==> !IsSpace(s[j])
    decreases |s| - i
  {
    if i < |s| && IsSpace(s[i]) then SkipSpaces(s, i + 1) else i
  }

  /** The end of the run of digits that starts at `i`. */
  function SkipDigits(s: string, i: nat): (j: nat)
    requires i <= |s|
    ensures i <= j <= |s| && AllDigits(s[i..j])
    ensures j < |s| ==> !IsDigit(s[j])
    decreases |s| - i
  {
    if i < |s| && IsDigit(s[i]) then SkipDigits(s, i + 1) else i
  }

  /** The number a run of decimal digits denotes. */
  function DecimalValue(digits: string): nat
    requires AllDigits(digits)
  {
    if digits == [] then 0
    else 10 * DecimalValue(digits[..|digits| - 1]) + (digits[|digits| - 1] as int - '0' as int)
  }

  /** What strtol returns and where it leaves the end pointer. */
  datatype Parsed = Parsed(value: int, end: nat)

  /** strtol's answer to a value outside the range of long: the nearest bound. */
  function ClampToLong(v: int): (w: int)
    ensures LongMin <= w <= LongMax
    ensures LongMin <= v <= LongMax ==> w == v
  {
    if v < LongMin then LongMin else if v > LongMax then LongMax else v
  }

  /** strtol(s, &end, 10): leading spaces, an optional sign and the longest run of
    * digits after it; with no digit there, the value is 0 and the end pointer is
    * the start of the text. */
  function StrToLong(s: string): (p: Parsed)
    ensures p.end <= |s|
    ensures LongMin <= p.value <= LongMax
  {
    var i := SkipSpaces(s, 0);
    var j := if i < |s| && (s[i] == '+' || s[i] == '-') then i + 1 else i;
    var k := SkipDigits(s, j);
    if k == j then Parsed(0, 0)
    else
      var magnitude: int := DecimalValue(s[j..k]);
      Parsed(ClampToLong(if j == i + 1 && s[i] == '-' then -magnitude else magnitude), k)
  }

  /** The (int) cast of a long, as the compilers the program targets perform it:
    * the value modulo 2^32, read back as a signed 32-bit number. */
  function ToInt(v: int): (w: int)
    ensures IntMin <= w <= IntMax
    ensures (v - w) % 0x1_0000_0000 == 0
    ensures IntMin <= v <= IntMax ==> w == v
  {
    var m := v % 0x1_0000_0000;
    if m > IntMax then m - 0x1_0000_0000 else m
  }

  /** The test *rest == '\0' after strtol: the end pointer reached the terminator,
    * which is the end of the text or a NUL inside it. */
  predicate ReadsWhole(s: string): (whole: bool)
    ensures '\0' !in s ==> (whole <==> s == [] || IsIntegerText(s))
  {
    ReadsWholeIffIntegerText(s);
    var e := StrToLong(s).end;
    e == |s| || s[e] == '\0'
  }

  /** A reference grammar for the texts strtol reads to the end: spaces, then an
    * optional sign, then at least one digit. */
  ghost predicate IsIntegerText(s: string)
  {
    exists a, b :: 0 <= a <= b < |s| && AllSpaces(s[..a])
      && (b == a || (b == a + 1 && (s[a] == '+' || s[a] == '-')))
      && AllDigits(s[b..])
  }

  /** SkipSpaces stops exactly at the first non-space. */
  lemma SkipSpacesStopsAt(s: string, a: nat)
    requires a < |s| && AllSpaces(s[..a]) && !IsSpace(s[a])
    ensures SkipSpaces(s, 0) == a
  {
  }

  /** A text that strtol reads up to its end matches the integer grammar. */
  lemma WholeReadIsIntegerText(s: string)
    requires s != [] && StrToLong(s).end == |s|
    ensures IsIntegerText(s)
  {
    var i := SkipSpaces(s, 0);
    var j := if i < |s| && (s[i] == '+' || s[i] == '-') then i + 1 else i;
    var k := SkipDigits(s, j);
    assert k == |s| && j < k;
    assert s[..i] == s[0..i];
    assert s[j..] == s[j..k];
  }

  /** strtol reads a text that matches the integer grammar up to its end. */
  lemma IntegerTextIsReadWhole(s: string)
    requires IsIntegerText(s)
    ensures StrToLong(s).end == |s|
  {
    var a, b :| 0 <= a <= b < |s| && AllSpaces(s[..a])
      && (b == a || (b == a + 1 && (s[a] == '+' || s[a] == '-')))
      && AllDigits(s[b..]);
    IntegerTextValue(s, a, b);
  }

  /** The value strtol gives a text of the integer grammar whose spaces end at `a`
    * and whose digits start at `b`: the number the digits denote, negated after a
    * '-', and clamped to the range of long. */
  lemma IntegerTextValue(s: string, a: nat, b: nat)
    requires a <= b < |s| && AllSpaces(s[..a])
    requires b == a || (b == a + 1 && (s[a] == '+' || s[a] == '-'))
    requires AllDigits(s[b..])
    ensures var v: int := DecimalValue(s[b..]);
      StrToLong(s) == Parsed(ClampToLong(if b == a + 1 && s[a] == '-' then -v else v), |s|)
  {
    assert s[b..][0] == s[b];
    SkipSpacesStopsAt(s, a);
    var k := SkipDigits(s, b);
    assert k == |s|;
    assert s[b..k] == s[b..];
  }

  /** A text free of NULs passes the *rest == '\0' test exactly when it is empty
    * or matches the integer grammar. */
  lemma ReadsWholeIffIntegerText(s: string)
    ensures var e := StrToLong(s).end;
      '\0' !in s ==> ((e == |s| || s[e] == '\0') <==> s == [] || IsIntegerText(s))
  {
    var e := StrToLong(s).end;
    if '\0' !in s {
      if e < |s| {
        assert s[e] in s;
      }
      if e == |s| && s != [] {
        WholeReadIsIntegerText(s);
      }
      if IsIntegerText(s) {
        IntegerTextIsReadWhole(s);
      }
    }
  }

  // ---------------------------------------------------------------------------
  // Decimal text, the partner of strtol
  // ---------------------------------------------------------------------------

  function DigitChar(d: nat): (c: char)
    requires d < 10
    ensures IsDigit(c) && c as int - '0' as int == d
  {
    ('0' as int + d) as char
  }

  /** The decimal digits of n, most significant first, without leading zeros. */
  function Digits(n: nat): (s: string)
    ensures s != [] && AllDigits(s)
  {
    if n < 10 then [DigitChar(n)] else Digits(n / 10) + [DigitChar(n % 10)]
  }

  /** The text printf("%d") writes for n. */
  function DecimalText(n: int): (s: string)
    ensures s != []
  {
    if n < 0 then "-" + Digits(-n) else Digits(n)
  }

  lemma {:induction false} DigitsValue(n: nat)
    ensures DecimalValue(Digits(n)) == n
  {
    if n >= 10 {
      var s := Digits(n);
      assert s[..|s| - 1] == Digits(n / 10);
      DigitsValue(n / 10);
    }
  }

  /** strtol reads a printed long back whole, with its value. */
  lemma StrToLongReadsDecimalText(n: int)
    requires LongMin <= n <= LongMax
    ensures StrToLong(DecimalText(n)) == Parsed(n, |DecimalText(n)|)
  {
    var s := DecimalText(n);
    var body := if n < 0 then Digits(-n) else Digits(n);
    var j := if n < 0 then 1 else 0;
    assert s[j..] == body;
    assert s[0] == '-' || IsDigit(s[0]) by {
      if n >= 0 {
        assert s[0] == body[0];
      }
    }
    assert SkipSpaces(s, 0) == 0;
    var k := SkipDigits(s, j);
    assert k == |s| > j;
    assert s[j..k] == body;
    DigitsValue(if n < 0 then -n else n);
  }

  /** A run of k zero digits. */
  function Zeros(k: nat): (z: string)
    ensures |z| == k && AllDigits(z)
    ensures DecimalValue(z) == 0
  {
    if k == 0 then []
    else
      var z := Zeros(k - 1) + ['0'];
      assert z[..k - 1] == Zeros(k - 1);
      z
  }

  /** Leading zeros do not change the number a run of digits denotes. */
  lemma {:induction false} LeadingZerosValue(k: nat, d: string)
    requires AllDigits(d)
    ensures AllDigits(Zeros(k) + d)
    ensures DecimalValue(Zeros(k) + d) == DecimalValue(d)
  {
    var t := Zeros(k) + d;
    if d == [] {
      assert t == Zeros(k);
    } else {
      var init := d[..|d| - 1];
      assert t[..|t| - 1] == Zeros(k) + init;
      LeadingZerosValue(k, init);
    }
  }

  /** The text printf("%0*d", width, n) writes for a non-negative n: its digits,
    * after as many zeros as make it `width` characters long. Driver ids are
    * printed this way with width 12 (trabalho-pratico/src/queries.c:99). */
  function PaddedText(n: nat, width: nat): (s: string)
    ensures AllDigits(s) && |s| == if width > |Digits(n)| then width else |Digits(n)|
  {
    var digits := Digits(n);
    if width > |digits| then
      LeadingZerosValue(width - |digits|, digits);
      Zeros(width - |digits|) + digits
    else digits
  }

  /** strtol reads a zero-padded printed long back whole, with its value. */
  lemma StrToLongReadsPaddedText(n: nat, width: nat)
    requires n <= LongMax
    ensures StrToLong(PaddedText(n, width)) == Parsed(n, |PaddedText(n, width)|)
  {
    var s := PaddedText(n, width);
    var digits := Digits(n);
    DigitsValue(n);
    if width > |digits| {
      LeadingZerosValue(width - |digits|, digits);
    }
    assert s[0..] == s;
    assert s[..0] == [];
    IntegerTextValue(s, 0, 0);
  }

  // ---------------------------------------------------------------------------
  // Query 1: a user or a driver
  // ---------------------------------------------------------------------------

  /** The two lookups query 1 can make. */
  datatype Lookup = DriverById(id: int) | UserByName(username: string)

  /** execute_query_find_user_or_driver_by_name_or_id's choice: the argument is a
    * driver id when strtol reads all of it, a username otherwise. */
  function Dispatch(arg: string): (l: Lookup)
    ensures l.UserByName? <==> !ReadsWhole(arg)
    ensures l.UserByName? ==> l.username == arg
    ensures l.DriverById? ==> l.id == ToInt(StrToLong(arg).value)
    ensures '\0' !in arg ==> (l.UserByName? <==> arg != [] && !IsIntegerText(arg))
  {
    if !ReadsWhole(arg) then UserByName(arg) else DriverById(ToInt(StrToLong(arg).value))
  }

  /** The printed form of every int goes to the driver with that id, and so does
    * the zero-padded form of a non-negative one, at any width. */
  lemma DispatchReadsPrintedIds(id: int, width: nat)
    requires IntMin <= id <= IntMax
    ensures Dispatch(DecimalText(id)) == DriverById(id)
    ensures 0 <= id ==> Dispatch(PaddedText(id, width)) == DriverById(id)
  {
    StrToLongReadsDecimalText(id);
    if 0 <= id {
      StrToLongReadsPaddedText(id, width);
    }
  }

  /** The line of a user's profile. */
  function UserLine(u: User): Line
  {
    ProfileLine(u.name, u.gender, u.birthdate, UserAverage(u), u.rides, u.spent)
  }

  /** The line of a driver's profile; its last column is the total earned. */
  function DriverLine(d: Driver): Line
  {
    ProfileLine(d.name, d.gender, d.birthdate, DriverAverage(d), d.rides, d.earned)
  }

  /** execute_query_find_user_by_name: one line for a registered, active user,
    * nothing for an unknown or inactive one. */
  function FindUserByName(c: Catalog, username: string): (out: seq<Line>)
    reads c
    requires c.StoreValid()
    ensures |out| <= 1
    ensures out != [] <==> username in c.userByName && c.users[c.userByName[username]].status == Active
    ensures out != [] ==> exists u :: u in c.users && u.username == username && out == [UserLine(u)]
  {
    match c.GetUser(username)
    case None => []
    case Some(u) =>
      if u.status == Inactive then []
      else
        assert u.status == Active && username in c.userByName;
        [UserLine(u)]
  }

  /** execute_query_find_driver_by_id: one line for a registered, active driver,
    * nothing for an unknown or inactive one. */
  function FindDriverById(c: Catalog, id: int): (out: seq<Line>)
    reads c
    requires c.StoreValid()
    ensures |out| <= 1
    ensures out != [] <==> id in c.driverById && c.drivers[c.driverById[id]].status == Active
    ensures out != [] ==> exists d :: d in c.drivers && d.id == id && out == [DriverLine(d)]
  {
    match c.GetDriver(id)
    case None => []
    case Some(d) =>
      if d.status == Inactive then []
      else
        assert d.status == Active && id in c.driverById;
        [DriverLine(d)]
  }

  /** execute_query_find_user_or_driver_by_name_or_id. */
  function FindUserOrDriver(c: Catalog, arg: string): (out: seq<Line>)
    reads c
    requires c.StoreValid()
    ensures |out| <= 1
    ensures !ReadsWhole(arg) ==> out == FindUserByName(c, arg)
    ensures ReadsWhole(arg) ==> out == FindDriverById(c, ToInt(StrToLong(arg).value))
  {
    match Dispatch(arg)
    case DriverById(id) => FindDriverById(c, id)
    case UserByName(username) => FindUserByName(c, username)
  }

  /** Query 1 on the printed id of a driver, plain or zero-padded, looks up that
    * driver; on a username that is not integer text it looks up that user. */
  lemma FindUserOrDriverReachesBoth(c: Catalog, id: int, width: nat, username: string)
    requires c.StoreValid()
    requires IntMin <= id <= IntMax
    requires '\0' !in username && username != [] && !IsIntegerText(username)
    ensures FindUserOrDriver(c, DecimalText(id)) == FindDriverById(c, id)
    ensures 0 <= id ==> FindUserOrDriver(c, PaddedText(id, width)) == FindDriverById(c, id)
    ensures FindUserOrDriver(c, username) == FindUserByName(c, username)
  {
    DispatchReadsPrintedIds(id, width);
  }

  // ---------------------------------------------------------------------------
  // Query 2: the top drivers
  // ---------------------------------------------------------------------------

  /** The lines of a ranking, one per driver: id, name and average score. */
  function RankLines(ds: seq<Driver>): (out: seq<Line>)
    ensures |out| == |ds|
    ensures forall i :: 0 <= i < |ds| ==> out[i] == RankLine(ds[i].id, ds[i].name, DriverAverage(ds[i]))
  {
    if ds == [] then [] else RankLines(ds[..|ds| - 1]) + [RankLine(ds[|ds| - 1].id, ds[|ds| - 1].name, DriverAverage(ds[|ds| - 1]))]
  }

  /** execute_query_top_n_drivers, printing only the drivers the ranking holds:
    * nothing when the count does not parse, otherwise one line for each of the
    * first n drivers of the finalized ranking. */
  function TopDriversQuery(c: Catalog, arg: string): (out: seq<Line>)
    reads c
    requires c.Valid() && c.finalized
    ensures |c.driverRanking| == |c.drivers|
    ensures !ReadsWhole(arg) ==> out == []
    ensures ReadsWhole(arg) ==>
      var n := ToInt(StrToLong(arg).value);
      && |out| == Clip(n, |c.drivers|)
      && forall i :: 0 <= i < |out| ==>
           out[i] == RankLine(c.driverRanking[i].id, c.driverRanking[i].name, DriverAverage(c.driverRanking[i]))
  {
    assert |c.driverRanking| == |multiset(c.driverRanking)| == |c.drivers|;
    if !ReadsWhole(arg) then []
    else
      var n := ToInt(StrToLong(arg).value);
      RankLines(c.driverRanking[..Clip(n, |c.driverRanking|)])
  }

  /** Asking for the printed form of n drivers lists min(n, number of drivers) of
    * them, and none for n <= 0. */
  lemma TopDriversQueryCount(c: Catalog, n: int)
    requires c.Valid() && c.finalized
    requires IntMin <= n <= IntMax
    ensures n <= 0 ==> TopDriversQuery(c, DecimalText(n)) == []
    ensures n > 0 ==> |TopDriversQuery(c, DecimalText(n))| == Min(n, |c.drivers|)
  {
    StrToLongReadsDecimalText(n);
  }
}
