/** The durable cursor of the indexer and its text form in the `state` table. */
module IndexerCursor {
  import opened Bitcoin

  datatype IndexerState =
    | HistoricalIndexing(targetHeight: nat, currentHeight: nat)
    | Active(lastIndexed: nat)

  /** Heights are u32. */
  predicate FitsU32(s: IndexerState) {
    match s
    case HistoricalIndexing(target, current) => target < U32_SIZE && current < U32_SIZE
    case Active(last) => last < U32_SIZE
  }

  const HISTORICAL: string := "historical:"
  const ACTIVE: string := "active:"

  predicate IsDigit(c: char) {
    '0' <= c <= '9'
  }

  function Decimal(n: nat): string {
    if n < 10 then [('0' as int + n) as char] else Decimal(n / 10) + [('0' as int + n % 10) as char]
  }

  function Format(s: IndexerState): string {
    match s
    case HistoricalIndexing(target, current) => HISTORICAL + Decimal(target) + ":" + Decimal(current)
    case Active(last) => ACTIVE + Decimal(last)
  }

  function ParseDigits(s: string): Option<nat> {
    if s == [] then None
    else
      var c := s[|s| - 1];
      if !IsDigit(c) then None
      else if |s| == 1 then Some(c as int - '0' as int)
      else match ParseDigits(s[..|s| - 1])
        case None => None
        case Some(n) => Some(10 * n + (c as int - '0' as int))
  }

  /** `str::parse::<u32>`: an optional plus sign, then digits, and no overflow. */
  function ParseU32(s: string): Option<nat> {
    match ParseDigits(if s != [] && s[0] == '+' then s[1..] else s)
    case None => None
    case Some(n) => if n < U32_SIZE then Some(n) else None
  }

  function OrZero(n: Option<nat>): nat {
    match n case None => 0 case Some(v) => v
  }

  /** `str::split`: the pieces between separators, at least one. */
  function Split(s: string, sep: char): (r: seq<string>)
    ensures |r| >= 1
  {
    if s == [] then [[]]
    else
      var rest := Split(s[1..], sep);
      if s[0] == sep then [[]] + rest else [[s[0]] + rest[0]] + rest[1..]
  }

  /** What `load_state` makes of a stored value. */
  function Parse(value: string): Option<IndexerState> {
    if HISTORICAL <= value then
      var parts := Split(value[|HISTORICAL|..], ':');
      if |parts| == 2 then Some(HistoricalIndexing(OrZero(ParseU32(parts[0])), OrZero(ParseU32(parts[1])))) else None
    else if ACTIVE <= value then Some(Active(OrZero(ParseU32(value[|ACTIVE|..]))))
    else None
  }

  lemma {:induction false} DecimalParses(n: nat)
    ensures Decimal(n) != [] && (forall c :: c in Decimal(n) ==> IsDigit(c)) && ParseDigits(Decimal(n)) == Some(n)
  {
    if n >= 10 {
      DecimalParses(n / 10);
      var s, c := Decimal(n / 10), ('0' as int + n % 10) as char;
      assert Decimal(n)[..|Decimal(n)| - 1] == s;
      assert c as int - '0' as int == n % 10;
    }
  }

  lemma {:induction false} ParseDecimal(n: nat)
    requires n < U32_SIZE
    ensures ParseU32(Decimal(n)) == Some(n)
  {
    DecimalParses(n);
    assert Decimal(n)[0] in Decimal(n);
  }

  lemma {:induction false} SplitNoSeparator(s: string, sep: char)
    requires sep !in s
    ensures Split(s, sep) == [s]
  {
    if s != [] {
      SplitNoSeparator(s[1..], sep);
      assert [s[0]] + s[1..] == s;
    }
  }

  lemma {:induction false} SplitOnce(a: string, b: string, sep: char)
    requires sep !in a && sep !in b
    ensures Split(a + [sep] + b, sep) == [a, b]
  {
    var s := a + [sep] + b;
    if a == [] {
      assert s[1..] == b;
      SplitNoSeparator(b, sep);
    } else {
      assert s[1..] == a[1..] + [sep] + b;
      SplitOnce(a[1..], b, sep);
      assert [a[0]] + a[1..] == a;
    }
  }

  lemma {:induction false} DropPrefix(a: string, b: string)
    ensures a <= a + b && (a + b)[|a|..] == b
  {
  }

  /** A saved cursor is read back unchanged. */
  lemma {:induction false} CursorRoundTrip(s: IndexerState)
    requires FitsU32(s)
    ensures Parse(Format(s)) == Some(s)
  {
    match s
    case HistoricalIndexing(target, current) =>
      var a, b := Decimal(target), Decimal(current);
      DecimalParses(target);
      DecimalParses(current);
      ParseDecimal(target);
      ParseDecimal(current);
      assert Format(s) == HISTORICAL + (a + ":" + b);
      DropPrefix(HISTORICAL, a + ":" + b);
      SplitOnce(a, b, ':');
    case Active(last) =>
      ParseDecimal(last);
      DropPrefix(ACTIVE, Decimal(last));
      assert Format(s)[0] != HISTORICAL[0];
  }

  /** The text of a cursor. */
  lemma {:induction false} StoredText()
    ensures Format(Active(840)) == "active:840" && Format(HistoricalIndexing(12, 7)) == "historical:12:7"
  {
    assert Decimal(84) == "84" && Decimal(840) == "840";
    assert Decimal(12) == "12" && Decimal(7) == "7";
  }

  /** A number may carry a plus sign or leading zeros; anything else, or too large a number, does not parse. */
  lemma {:induction false} ForeignNumbers(n: nat)
    ensures ParseU32(Decimal(n)) == if n < 4_294_967_296 then Some(n) else None
    ensures ParseU32("+7") == ParseU32("07") == Some(7)
    ensures ParseU32("") == ParseU32("x") == ParseU32("1x") == ParseU32("x1") == ParseU32("++7") == None
  {
    DecimalParses(n);
    assert Decimal(n)[0] in Decimal(n);
    assert "+7"[1..] == "7" && "07"[..1] == "0" && "x1"[..1] == "x" && "1x"[..1] == "1";
    assert "++7"[1..] == "+7" && "+7"[..1] == "+";
  }

  /** What is read from any text: after `active:` a number, zero if it does not parse. */
  lemma {:induction false} ReadsActive(text: string)
    ensures Parse("active:" + text) == Some(Active(match ParseU32(text) case None => 0 case Some(n) => n))
  {
    DropPrefix("active:", text);
    assert ("active:" + text)[0] != HISTORICAL[0];
  }

  /** After `historical:` two such numbers, target first. */
  lemma {:induction false} ReadsHistorical(a: string, b: string)
    requires ':' !in a && ':' !in b
    ensures Parse("historical:" + a) == None
    ensures Parse("historical:" + a + ":" + b)
         == Some(HistoricalIndexing(match ParseU32(a) case None => 0 case Some(n) => n,
                                    match ParseU32(b) case None => 0 case Some(n) => n))
  {
    assert "historical:" + a + ":" + b == "historical:" + (a + ":" + b);
    DropPrefix("historical:", a + ":" + b);
    DropPrefix("historical:", a);
    SplitNoSeparator(a, ':');
    SplitOnce(a, b, ':');
  }
}
