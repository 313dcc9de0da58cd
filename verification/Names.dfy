/** How bench/config.py spells workload names: decimal numbers and words joined by underscores. */
module Names {

  datatype Option<+T> = None | Some(value: T)

  // ---- decimal numbers

  predicate IsDigit(c: char) { '0' <= c <= '9' }

  function Digit(d: nat): (c: char)
    requires d < 10
    ensures IsDigit(c)
  {
    '0' + d as char
  }

  function DigitValue(c: char): (d: nat)
    requires IsDigit(c)
    ensures d < 10
  {
    c as int - '0' as int
  }

  function Decimal(n: nat): (s: string)
    ensures s != [] && forall c :: c in s ==> IsDigit(c)
  {
    if n < 10 then [Digit(n)] else Decimal(n / 10) + [Digit(n % 10)]
  }

  function ParseDecimal(s: string): Option<nat> {
    if s == [] || !IsDigit(s[|s| - 1]) then None
    else if |s| == 1 then Some(DigitValue(s[0]))
    else
      match ParseDecimal(s[..|s| - 1])
      case None => None
      case Some(n) => Some(10 * n + DigitValue(s[|s| - 1]))
  }

  lemma {:induction false} DecimalRoundTrip(n: nat)
    ensures ParseDecimal(Decimal(n)) == Some(n)
  {
    if 10 <= n {
      DecimalRoundTrip(n / 10);
      var s := Decimal(n);
      assert s[..|s| - 1] == Decimal(n / 10);
    }
  }

  // ---- words joined by underscores

  predicate IsWord(s: string) { '_' !in s }

  ghost predicate AreWords(words: seq<string>) { forall i :: 0 <= i < |words| ==> IsWord(words[i]) }

  function Join(words: seq<string>): string
    requires words != []
  {
    if |words| == 1 then words[0] else words[0] + ['_'] + Join(words[1..])
  }

  /** The text before the first underscore, and what follows it. */
  function Split(s: string): (r: seq<string>)
    ensures r != []
  {
    if s == [] then [[]]
    else
      var rest := Split(s[1..]);
      if s[0] == '_' then [[]] + rest else [[s[0]] + rest[0]] + rest[1..]
  }

  lemma {:induction false} SplitWord(word: string)
    requires IsWord(word)
    ensures Split(word) == [word]
  {
    if word != [] {
      assert word[0] in word && word == [word[0]] + word[1..];
      SplitWord(word[1..]);
    }
  }

  lemma {:induction false} SplitAtUnderscore(word: string, rest: string)
    requires IsWord(word)
    ensures Split(word + ['_'] + rest) == [word] + Split(rest)
  {
    var s := word + ['_'] + rest;
    if word == [] {
      assert s[1..] == rest;
    } else {
      assert word[0] in word && word == [word[0]] + word[1..];
      assert s[0] == word[0] && s[1..] == word[1..] + ['_'] + rest;
      SplitAtUnderscore(word[1..], rest);
    }
  }

  lemma {:induction false} SplitJoin(words: seq<string>)
    requires words != [] && AreWords(words)
    ensures Split(Join(words)) == words
  {
    if |words| == 1 {
      SplitWord(words[0]);
    } else {
      SplitJoin(words[1..]);
      SplitAtUnderscore(words[0], Join(words[1..]));
    }
  }

  // ---- labels: what a name has to tell apart

  datatype Acks = Level(n: nat) | All

  datatype FamilyLabel =
    | Throughput(size: nat, compression: string, partitions: nat, idempotent: bool)
    | ConsumerThroughput(size: nat)
    | FetchLatency(size: nat)
    | Rebalance

  datatype Label =
    | Latency(size: nat, acks: Acks, compression: string, idempotent: bool, inFlight: nat)
    | Family(family: FamilyLabel)

  function AcksText(a: Acks): string {
    match a
    case Level(n) => Decimal(n)
    case All => "all"
  }

  function Flag(b: bool): string { if b then "1" else "0" }

  /** The f-string of each kind of workload, word by word. */
  function Words(l: Label): (r: seq<string>)
    ensures r != []
  {
    match l
    case Latency(size, acks, compression, idempotent, inFlight) =>
      ["lat", "sz" + Decimal(size), "acks" + AcksText(acks), compression, "idem" + Flag(idempotent),
       "inflight" + Decimal(inFlight)]
    case Family(Throughput(size, compression, partitions, idempotent)) =>
      ["thr", "sz" + Decimal(size), compression, "p" + Decimal(partitions), "idem" + Flag(idempotent)]
    case Family(ConsumerThroughput(size)) => ["cons", "thr", "sz" + Decimal(size)]
    case Family(FetchLatency(size)) => ["fetch", "lat", "sz" + Decimal(size)]
    case Family(Rebalance) => ["rebalance", "2to1"]
  }

  function Name(l: Label): string { Join(Words(l)) }

  predicate Spellable(l: Label) {
    match l
    case Latency(_, _, compression, _, _) => IsWord(compression)
    case Family(Throughput(_, compression, _, _)) => IsWord(compression)
    case _ => true
  }

  // ---- the parser

  /** What follows a fixed prefix of a word. */
  function After(prefix: string, word: string): Option<string> {
    if prefix <= word then Some(word[|prefix|..]) else None
  }

  function ParseNumber(prefix: string, word: string): Option<nat> {
    match After(prefix, word)
    case None => None
    case Some(rest) => ParseDecimal(rest)
  }

  function ParseFlag(prefix: string, word: string): Option<bool> {
    match After(prefix, word)
    case None => None
    case Some(rest) => if rest == "1" then Some(true) else if rest == "0" then Some(false) else None
  }

  function ParseAcks(prefix: string, word: string): Option<Acks> {
    match After(prefix, word)
    case None => None
    case Some(rest) =>
      if rest == "all" then Some(All)
      else match ParseDecimal(rest) case None => None case Some(n) => Some(Level(n))
  }

  function ParseWords(w: seq<string>): Option<Label> {
    if |w| == 6 && w[0] == "lat" then
      match (ParseNumber("sz", w[1]), ParseAcks("acks", w[2]), ParseFlag("idem", w[4]), ParseNumber("inflight", w[5]))
      case (Some(size), Some(acks), Some(idempotent), Some(inFlight)) =>
        Some(Latency(size, acks, w[3], idempotent, inFlight))
      case _ => None
    else if |w| == 5 && w[0] == "thr" then
      match (ParseNumber("sz", w[1]), ParseNumber("p", w[3]), ParseFlag("idem", w[4]))
      case (Some(size), Some(partitions), Some(idempotent)) =>
        Some(Family(Throughput(size, w[2], partitions, idempotent)))
      case _ => None
    else if |w| == 3 && w[0] == "cons" then
      match ParseNumber("sz", w[2]) case None => None case Some(size) => Some(Family(ConsumerThroughput(size)))
    else if |w| == 3 && w[0] == "fetch" then
      match ParseNumber("sz", w[2]) case None => None case Some(size) => Some(Family(FetchLatency(size)))
    else if |w| == 2 && w[0] == "rebalance" then Some(Family(Rebalance))
    else None
  }

  function ParseName(name: string): Option<Label> { ParseWords(Split(name)) }

  lemma NumberRoundTrip(prefix: string, n: nat)
    requires IsWord(prefix)
    ensures ParseNumber(prefix, prefix + Decimal(n)) == Some(n)
    ensures IsWord(prefix + Decimal(n))
  {
    DecimalRoundTrip(n);
    assert (prefix + Decimal(n))[|prefix|..] == Decimal(n);
  }

  lemma FlagRoundTrip(prefix: string, b: bool)
    requires IsWord(prefix)
    ensures ParseFlag(prefix, prefix + Flag(b)) == Some(b)
    ensures IsWord(prefix + Flag(b))
  {
    assert (prefix + Flag(b))[|prefix|..] == Flag(b);
  }

  lemma AcksRoundTrip(prefix: string, a: Acks)
    requires IsWord(prefix)
    ensures ParseAcks(prefix, prefix + AcksText(a)) == Some(a)
    ensures IsWord(prefix + AcksText(a))
  {
    assert (prefix + AcksText(a))[|prefix|..] == AcksText(a);
    if a.Level? {
      DecimalRoundTrip(a.n);
      assert "all"[0] == 'a' && !IsDigit('a');
      assert AcksText(a)[0] in AcksText(a);
    }
  }

  lemma WordsRoundTrip(l: Label)
    requires Spellable(l)
    ensures ParseWords(Words(l)) == Some(l)
    ensures AreWords(Words(l))
  {
    hide Decimal, AcksText, Flag, ParseNumber, ParseFlag, ParseAcks;
    match l {
      case Latency(size, acks, _, idempotent, inFlight) =>
        NumberRoundTrip("sz", size);
        AcksRoundTrip("acks", acks);
        FlagRoundTrip("idem", idempotent);
        NumberRoundTrip("inflight", inFlight);
      case Family(Throughput(size, _, partitions, idempotent)) =>
        NumberRoundTrip("sz", size);
        NumberRoundTrip("p", partitions);
        FlagRoundTrip("idem", idempotent);
      case Family(ConsumerThroughput(size)) =>
        NumberRoundTrip("sz", size);
      case Family(FetchLatency(size)) =>
        NumberRoundTrip("sz", size);
      case Family(Rebalance) =>
    }
  }

  /** Every label can be read back from its name. */
  lemma NameRoundTrip(l: Label)
    requires Spellable(l)
    ensures ParseName(Name(l)) == Some(l)
  {
    WordsRoundTrip(l);
    SplitJoin(Words(l));
  }

  /** So different labels have different names. */
  lemma NamesInjective(a: Label, b: Label)
    requires Spellable(a) && Spellable(b)
    ensures Name(a) == Name(b) <==> a == b
  {
    hide Name, ParseName;
    NameRoundTrip(a);
    NameRoundTrip(b);
  }

  lemma JoinTwo(a: string, b: string)
    ensures Join([a, b]) == a + "_" + b
  {
    assert [a, b][1..] == [b];
  }

  lemma JoinThree(a: string, b: string, c: string)
    ensures Join([a, b, c]) == a + "_" + b + "_" + c
  {
    assert [a, b, c][1..] == [b, c];
    JoinTwo(b, c);
  }

  lemma JoinFive(a: string, b: string, c: string, d: string, e: string)
    ensures Join([a, b, c, d, e]) == a + "_" + b + "_" + c + "_" + d + "_" + e
  {
    assert [a, b, c, d, e][1..] == [b, c, d, e] && [b, c, d, e][1..] == [c, d, e];
    JoinThree(c, d, e);
  }

  lemma JoinSix(a: string, b: string, c: string, d: string, e: string, f: string)
    ensures Join([a, b, c, d, e, f]) == a + "_" + b + "_" + c + "_" + d + "_" + e + "_" + f
  {
    assert [a, b, c, d, e, f][1..] == [b, c, d, e, f];
    JoinFive(b, c, d, e, f);
  }

  /** The spelling itself: which texts stand around the values of each kind of name. */
  lemma Spelling(size: nat, acks: nat, comp: string, idem: bool, inFlight: nat, partitions: nat)
    ensures var sz, flag := Decimal(size), if idem then "1" else "0";
            && Name(Latency(size, Level(acks), comp, idem, inFlight))
               == "lat" + "_" + ("sz" + sz) + "_" + ("acks" + Decimal(acks)) + "_" + comp + "_" + ("idem" + flag)
                  + "_" + ("inflight" + Decimal(inFlight))
            && Name(Latency(size, All, comp, idem, inFlight))
               == "lat" + "_" + ("sz" + sz) + "_" + ("acks" + "all") + "_" + comp + "_" + ("idem" + flag)
                  + "_" + ("inflight" + Decimal(inFlight))
            && Name(Family(Throughput(size, comp, partitions, idem)))
               == "thr" + "_" + ("sz" + sz) + "_" + comp + "_" + ("p" + Decimal(partitions)) + "_" + ("idem" + flag)
            && Name(Family(ConsumerThroughput(size))) == "cons" + "_" + "thr" + "_" + ("sz" + sz)
            && Name(Family(FetchLatency(size))) == "fetch" + "_" + "lat" + "_" + ("sz" + sz)
            && Name(Family(Rebalance)) == "rebalance" + "_" + "2to1"
  {
    hide Decimal, Join;
    var sz, flag := "sz" + Decimal(size), "idem" + if idem then "1" else "0";
    JoinSix("lat", sz, "acks" + Decimal(acks), comp, flag, "inflight" + Decimal(inFlight));
    JoinSix("lat", sz, "acks" + "all", comp, flag, "inflight" + Decimal(inFlight));
    JoinFive("thr", sz, comp, "p" + Decimal(partitions), flag);
    JoinThree("cons", "thr", sz);
    JoinThree("fetch", "lat", sz);
    JoinTwo("rebalance", "2to1");
  }

  /** Decimal numbers are spelled most significant digit first, without leading zeros. */
  lemma DecimalSpelling(n: nat)
    ensures n < 10 ==> Decimal(n) == ["0123456789"[n]]
    ensures 10 <= n ==> Decimal(n) == Decimal(n / 10) + ["0123456789"[n % 10]]
  {
  }
}
