/** Naming a pull request as owner/repository#number, and reading such a name or a pasted URL back. */
module Reference {
  import opened Core

  // ----- the string library -----

  predicate OccursAt(s: string, part: string, i: int) {
    0 <= i <= |s| && part <= s[i..]
  }

  ghost predicate Contains(s: string, part: string) {
    exists i :: OccursAt(s, part, i)
  }

  function IndexFrom(s: string, part: string, from: nat): (index: int)
    requires from <= |s|
    ensures index == -1 || (from <= index && index + |part| <= |s|)
    decreases |s| - from
  {
    if OccursAt(s, part, from) then from
    else if from == |s| then -1
    else IndexFrom(s, part, from + 1)
  }

  /** The first occurrence of a part, or -1. */
  function Index(s: string, part: string): (index: int)
    ensures index == -1 || (0 <= index && index + |part| <= |s|)
  {
    IndexFrom(s, part, 0)
  }

  lemma {:induction false} IndexFromIsFirst(s: string, part: string, from: nat)
    requires from <= |s|
    ensures var index := IndexFrom(s, part, from);
      && (index == -1 || OccursAt(s, part, index))
      && (forall i :: from <= i && (index == -1 || i < index) ==> !OccursAt(s, part, i))
    decreases |s| - from
  {
    if !OccursAt(s, part, from) && from < |s| {
      IndexFromIsFirst(s, part, from + 1);
    }
  }

  lemma IndexIs(s: string, part: string, at: int)
    requires OccursAt(s, part, at)
    requires forall i :: 0 <= i < at ==> !OccursAt(s, part, i)
    ensures Index(s, part) == at
  {
    IndexFromIsFirst(s, part, 0);
  }

  lemma IndexOfNone(s: string, part: string)
    ensures Index(s, part) == -1 <==> !Contains(s, part)
    ensures Index(s, part) != -1 ==> OccursAt(s, part, Index(s, part))
  {
    IndexFromIsFirst(s, part, 0);
  }

  lemma OccurrenceBegins(s: string, part: string, i: int)
    requires part != ""
    ensures OccursAt(s, part, i) ==> s[i] == part[0]
  {
    if OccursAt(s, part, i) {
      assert s[i..][0] == s[i];
    }
  }

  function IndexAnyFrom(s: string, chars: set<char>, from: nat): (index: int)
    requires from <= |s|
    ensures index == -1 || from <= index < |s|
    decreases |s| - from
  {
    if from == |s| then -1
    else if s[from] in chars then from
    else IndexAnyFrom(s, chars, from + 1)
  }

  /** The first position of any of the characters, or -1. */
  function IndexAny(s: string, chars: set<char>): (index: int)
    ensures -1 <= index < |s|
  {
    IndexAnyFrom(s, chars, 0)
  }

  lemma {:induction false} IndexAnyFromIsFirst(s: string, chars: set<char>, from: nat)
    requires from <= |s|
    ensures var index := IndexAnyFrom(s, chars, from);
      && (index >= 0 ==> s[index] in chars)
      && (forall i :: from <= i < (if index == -1 then |s| else index) ==> s[i] !in chars)
    decreases |s| - from
  {
    if from < |s| && s[from] !in chars {
      IndexAnyFromIsFirst(s, chars, from + 1);
    }
  }

  lemma IndexAnyIsFirst(s: string, chars: set<char>)
    ensures var index := IndexAny(s, chars);
      && (index >= 0 ==> s[index] in chars)
      && (forall i :: 0 <= i < (if index == -1 then |s| else index) ==> s[i] !in chars)
  {
    IndexAnyFromIsFirst(s, chars, 0);
  }

  lemma IndexAnyIs(s: string, chars: set<char>, at: int)
    requires 0 <= at < |s| && s[at] in chars
    requires forall i :: 0 <= i < at ==> s[i] !in chars
    ensures IndexAny(s, chars) == at
  {
    IndexAnyIsFirst(s, chars);
  }

  /** Every occurrence replaced, from the left and without overlaps. */
  function ReplaceAll(s: string, part: string, with: string): string
    requires part != ""
    decreases |s|
  {
    if s == "" then ""
    else if part <= s then with + ReplaceAll(s[|part|..], part, with)
    else [s[0]] + ReplaceAll(s[1..], part, with)
  }

  /** The white space of Unicode. */
  predicate IsSpace(c: char) {
    || '\t' <= c <= '\r' || c == ' ' || c == '\U{85}' || c == '\U{A0}' || c == '\U{1680}'
    || '\U{2000}' <= c <= '\U{200A}' || c == '\U{2028}' || c == '\U{2029}' || c == '\U{202F}' || c == '\U{205F}' || c == '\U{3000}'
  }

  function TrimFront(s: string): (rest: string)
    ensures |rest| <= |s|
  {
    if s != "" && IsSpace(s[0]) then TrimFront(s[1..]) else s
  }

  function TrimBack(s: string): (rest: string)
    ensures |rest| <= |s|
  {
    if s != "" && IsSpace(s[|s| - 1]) then TrimBack(s[..|s| - 1]) else s
  }

  function TrimSpace(s: string): string {
    TrimBack(TrimFront(s))
  }

  // ----- decimal numbers -----

  const MAX_INT := 0x7fff_ffff_ffff_ffff

  predicate IsDigit(c: char) {
    '0' <= c <= '9'
  }

  predicate AllDigits(s: string) {
    forall i :: 0 <= i < |s| ==> IsDigit(s[i])
  }

  function DigitOf(d: nat): char
    requires d < 10
  {
    '0' + d as char
  }

  function NumberOf(digits: string): nat
    requires AllDigits(digits)
  {
    if digits == "" then 0
    else NumberOf(digits[..|digits| - 1]) * 10 + (digits[|digits| - 1] - '0') as nat
  }

  function Digits(n: nat): (s: string)
    ensures s != "" && AllDigits(s)
  {
    if n < 10 then [DigitOf(n)] else Digits(n / 10) + [DigitOf(n % 10)]
  }

  function Decimal(n: int): string {
    if n < 0 then "-" + Digits(-n) else Digits(n)
  }

  /** A number with an optional sign that fits in 64 bits. */
  function Atoi(s: string): Option<int> {
    var body := if s != "" && (s[0] == '+' || s[0] == '-') then s[1..] else s;
    if body == "" || !AllDigits(body) then None
    else
      var n: int := if s[0] == '-' then -(NumberOf(body) as int) else NumberOf(body);
      if -MAX_INT - 1 <= n <= MAX_INT then Some(n) else None
  }

  // ----- the two directions -----

  datatype Pull = Pull(owner: string, repository: string, number: int)

  /** How a pull request is named. */
  function Render(p: Pull): string {
    p.owner + "/" + p.repository + "#" + Decimal(p.number)
  }

  const HOST := "github.com/"
  const PULL := "/pull/"

  function DropSlash(s: string): string {
    if s != "" && s[|s| - 1] == '/' then s[..|s| - 1] else s
  }

  /** Cuts whatever follows the number. */
  function DropRest(s: string): string {
    var cut := IndexAny(s, {'#'});
    if cut == -1 then s
    else
      var end := IndexAny(s[cut..], {'/', '?'});
      if end > 0 then s[..cut + end] else s
  }

  /** What is left of a pasted URL from its owner on, written the short way. */
  function FromUrl(value: string): string {
    DropRest(DropSlash(ReplaceAll(value, PULL, "#")))
  }

  function Unpasted(value: string): string {
    var index := Index(value, HOST);
    if index >= 0 then FromUrl(value[index + |HOST|..]) else value
  }

  function Normalised(reference: string): string {
    Unpasted(TrimSpace(reference))
  }

  /** Reads owner/repository#number. */
  function Read(value: string): Option<Pull> {
    var hash := IndexAny(value, {'#'});
    if hash == -1 then None
    else
      var name, digits := value[..hash], value[hash + 1..];
      var slash := IndexAny(name, {'/'});
      if slash == -1 || slash == 0 || slash + 1 == |name| then None
      else
        match Atoi(digits)
        case None => None
        case Some(number) =>
          if number <= 0 then None else Some(Pull(name[..slash], name[slash + 1..], number))
  }

  function Parse(reference: string): Option<Pull> {
    Read(Normalised(reference))
  }

  method ParseReference(reference: string) returns (r: Option<Pull>)
    ensures r == Parse(reference)
  {
    var value := Unpaste(TrimSpace(reference));
    r := ReadShort(value);
  }

  /** The steps for a pasted URL. */
  method Unpaste(trimmed: string) returns (value: string)
    ensures value == Unpasted(trimmed)
  {
    value := trimmed;
    var index := Index(value, HOST);
    if index >= 0 {
      value := Shortened(value[index + |HOST|..]);
    }
  }

  /** The steps for what follows the host's name. */
  method Shortened(pasted: string) returns (value: string)
    ensures value == FromUrl(pasted)
  {
    value := ReplaceAll(pasted, PULL, "#");
    if value != "" && value[|value| - 1] == '/' {
      value := value[..|value| - 1];
    }
    var cut := IndexAny(value, {'#'});
    if cut >= 0 {
      var end := IndexAny(value[cut..], {'/', '?'});
      if end > 0 {
        value := value[..cut + end];
      }
    }
  }

  /** The steps for what is then owner/repository#number, or not. */
  method ReadShort(value: string) returns (r: Option<Pull>)
    ensures r == Read(value)
  {
    var hash := IndexAny(value, {'#'});
    if hash == -1 {
      return None;
    }
    var name, digits := value[..hash], value[hash + 1..];
    var slash := IndexAny(name, {'/'});
    if slash == -1 || slash == 0 || slash + 1 == |name| {
      return None;
    }
    var number := Atoi(digits);
    if number.None? || number.value <= 0 {
      return None;
    }
    return Some(Pull(name[..slash], name[slash + 1..], number.value));
  }

  // ----- numbers read back -----

  lemma {:induction false} DigitsReadBack(n: nat)
    ensures NumberOf(Digits(n)) == n
  {
    if n >= 10 {
      DigitsReadBack(n / 10);
      assert Digits(n)[..|Digits(n)| - 1] == Digits(n / 10);
    } else {
      assert [DigitOf(n)][..0] == "";
    }
  }

  function Pow10(n: nat): nat {
    if n == 0 then 1 else Pow10(n - 1) * 10
  }

  lemma {:induction false} NumberIsBounded(digits: string)
    requires AllDigits(digits)
    ensures NumberOf(digits) < Pow10(|digits|)
  {
    if digits != "" {
      NumberIsBounded(digits[..|digits| - 1]);
    }
  }

  lemma {:induction false} DigitsAreNeeded(n: nat)
    requires n > 0
    ensures Pow10(|Digits(n)| - 1) <= n
  {
    if n >= 10 {
      DigitsAreNeeded(n / 10);
    }
  }

  lemma {:induction false} PowAscends(m: nat, n: nat)
    requires m <= n
    ensures Pow10(m) <= Pow10(n)
  {
    if m < n {
      PowAscends(m, n - 1);
    }
  }

  /** No shorter text denotes the number. */
  lemma DecimalIsShortest(digits: string)
    requires Atoi(digits).Some? && Atoi(digits).value > 0
    ensures |digits| >= |Decimal(Atoi(digits).value)|
  {
    var n := Atoi(digits).value;
    var body := if digits[0] == '+' then digits[1..] else digits;
    NumberIsBounded(body);
    DigitsAreNeeded(n);
    if |body| < |Digits(n)| {
      PowAscends(|body|, |Digits(n)| - 1);
    }
  }

  lemma DecimalReadsBack(n: int)
    requires 0 < n <= MAX_INT
    ensures Atoi(Decimal(n)) == Some(n)
  {
    DigitsReadBack(n);
    assert IsDigit(Digits(n)[0]);
  }

  /** A number may carry a sign and zeros in front, and has to fit in 64 bits. */
  lemma SignsAndZeros(n: nat)
    requires n <= MAX_INT
    ensures Atoi("+" + Digits(n)) == Some(n) && Atoi("-" + Digits(n)) == Some(-(n as int)) && Atoi("0" + Digits(n)) == Some(n)
  {
    DigitsReadBack(n);
    ZeroInFront(Digits(n));
    assert ("+" + Digits(n))[1..] == Digits(n) && ("-" + Digits(n))[1..] == Digits(n);
  }

  lemma {:induction false} ZeroInFront(digits: string)
    requires AllDigits(digits)
    ensures AllDigits("0" + digits) && NumberOf("0" + digits) == NumberOf(digits)
  {
    var s := "0" + digits;
    if digits != "" {
      assert s[..|s| - 1] == "0" + digits[..|digits| - 1];
      ZeroInFront(digits[..|digits| - 1]);
    } else {
      assert s[..0] == "";
    }
  }

  lemma TooBigIsRefused(n: nat)
    requires n > MAX_INT
    ensures Atoi(Decimal(n)) == None
  {
    DigitsReadBack(n);
    assert IsDigit(Digits(n)[0]);
  }

  // ----- what can be read -----

  ghost predicate Free(s: string, c: char) {
    forall i :: 0 <= i < |s| ==> s[i] != c
  }

  /** The parts could have been read from some text. */
  ghost predicate Readable(p: Pull) {
    && p.owner != "" && Free(p.owner, '/') && Free(p.owner, '#')
    && p.repository != "" && Free(p.repository, '#')
    && 0 < p.number <= MAX_INT
  }

  /** What is read stood in the text: the name before the first '#' and the number after it. */
  lemma ReadParts(value: string)
    requires Read(value).Some?
    ensures var p, hash := Read(value).value, IndexAny(value, {'#'});
      && hash == |p.owner| + 1 + |p.repository|
      && p.owner == value[..|p.owner|] && p.repository == value[|p.owner| + 1..hash]
      && Atoi(value[hash + 1..]) == Some(p.number) && p.number > 0
      && p.owner != "" && Free(p.owner, '/') && p.repository != ""
  {
    IndexAnyIsFirst(value[..IndexAny(value, {'#'})], {'/'});
  }

  /** An owner without '/' or '#', a slash, a repository without '#', a hash, and text that denotes the positive number. */
  ghost predicate Spells(value: string, p: Pull, digits: string) {
    && p.owner != "" && Free(p.owner, '/') && Free(p.owner, '#')
    && p.repository != "" && Free(p.repository, '#') && p.number > 0
    && value == p.owner + "/" + p.repository + "#" + digits && Atoi(digits) == Some(p.number)
  }

  /** What is read is spelled out in the text, and what is spelled out so is read. */
  lemma ReadsExactly(value: string, p: Pull)
    ensures Read(value) == Some(p) <==> exists digits :: Spells(value, p, digits)
  {
    if Read(value) == Some(p) {
      ReadIsSpelled(value, p);
    }
    if digits :| Spells(value, p, digits) {
      NamedReads(p, digits);
    }
  }

  lemma SplitsAt(s: string, at: nat, separator: string)
    requires at < |s| && separator == [s[at]]
    ensures s == s[..at] + separator + s[at + 1..]
  {
  }

  lemma NameIsSpelled(value: string, hash: nat, p: Pull)
    requires hash <= |value| && hash == |p.owner| + 1 + |p.repository| && value[|p.owner|] == '/'
    requires p.owner == value[..|p.owner|] && p.repository == value[|p.owner| + 1..hash]
    ensures value[..hash] == p.owner + "/" + p.repository
  {
    var name := value[..hash];
    SplitsAt(name, |p.owner|, "/");
    assert name[..|p.owner|] == p.owner && name[|p.owner| + 1..] == p.repository;
  }

  lemma ReadIsSpelled(value: string, p: Pull)
    requires Read(value) == Some(p)
    ensures Spells(value, p, value[IndexAny(value, {'#'}) + 1..])
  {
    var hash := IndexAny(value, {'#'});
    ReadParts(value);
    IndexAnyIsFirst(value, {'#'});
    SlashIsThere(value);
    SplitsAt(value, hash, "#");
    NameIsSpelled(value, hash, p);
    assert forall i :: 0 <= i < |p.owner| ==> p.owner[i] == value[i];
    assert forall i :: 0 <= i < |p.repository| ==> p.repository[i] == value[|p.owner| + 1 + i];
  }

  lemma SlashIsThere(value: string)
    requires Read(value).Some?
    ensures var p := Read(value).value; |p.owner| < |value| && value[|p.owner|] == '/'
  {
    IndexAnyIsFirst(value[..IndexAny(value, {'#'})], {'/'});
  }

  lemma FirstHash(name: string, digits: string)
    requires Free(name, '#')
    ensures var value := name + "#" + digits;
      && IndexAny(value, {'#'}) == |name| && value[..|name|] == name && value[|name| + 1..] == digits
  {
    var value := name + "#" + digits;
    assert value[|name|] == '#';
    assert forall i :: 0 <= i < |name| ==> value[i] == name[i];
    IndexAnyIs(value, {'#'}, |name|);
  }

  lemma FirstSlash(owner: string, repository: string)
    requires Free(owner, '/')
    ensures var name := owner + "/" + repository;
      && IndexAny(name, {'/'}) == |owner| && name[..|owner|] == owner && name[|owner| + 1..] == repository
  {
    var name := owner + "/" + repository;
    assert name[|owner|] == '/';
    assert forall i :: 0 <= i < |owner| ==> name[i] == owner[i];
    IndexAnyIs(name, {'/'}, |owner|);
  }

  lemma NamedReads(p: Pull, digits: string)
    requires p.owner != "" && Free(p.owner, '/') && Free(p.owner, '#')
    requires p.repository != "" && Free(p.repository, '#') && p.number > 0 && Atoi(digits) == Some(p.number)
    ensures Read(p.owner + "/" + p.repository + "#" + digits) == Some(p)
  {
    var name := p.owner + "/" + p.repository;
    assert Free(name, '#');
    FirstHash(name, digits);
    FirstSlash(p.owner, p.repository);
  }

  /** Whatever is read is readable, and its name stood before the first '#'. */
  lemma ReadIsReadable(value: string)
    requires Read(value).Some?
    ensures Readable(Read(value).value)
    ensures var p := Read(value).value;
      && IndexAny(value, {'#'}) == |p.owner| + 1 + |p.repository|
      && |value| >= |Render(p)|
  {
    ReadParts(value);
    IndexAnyIsFirst(value, {'#'});
    DecimalIsShortest(value[IndexAny(value, {'#'}) + 1..]);
  }

  /** A readable name written out plainly reads back. */
  lemma PlainReadsBack(p: Pull)
    requires Readable(p)
    ensures Read(Render(p)) == Some(p)
  {
    DecimalReadsBack(p.number);
    NamedReads(p, Decimal(p.number));
  }

  // ----- the short form -----

  lemma {:induction false} ReplacingShortens(s: string, part: string, with: string)
    requires 0 < |part| && |with| <= |part|
    ensures |ReplaceAll(s, part, with)| <= |s|
    decreases |s|
  {
    if s != "" {
      ReplacingShortens(if part <= s then s[|part|..] else s[1..], part, with);
    }
  }

  lemma TrimmingShortens(s: string)
    ensures |TrimSpace(s)| <= |s|
    ensures |TrimSpace(s)| == |s| ==> TrimSpace(s) == s && (s == "" || !IsSpace(s[0]))
  {
  }

  lemma UrlShortens(value: string)
    ensures |FromUrl(value)| <= |value|
  {
    ReplacingShortens(value, PULL, "#");
  }

  lemma UnpastingShortens(value: string)
    ensures |Unpasted(value)| <= |value|
    ensures |Unpasted(value)| == |value| ==> !Contains(value, HOST)
  {
    IndexOfNone(value, HOST);
    var index := Index(value, HOST);
    if index >= 0 {
      var after := value[index + |HOST|..];
      UrlShortens(after);
      assert Unpasted(value) == FromUrl(after) && |after| < |value|;
    }
  }

  /** A URL, or space at the front, leaves less than was written. */
  lemma NormalisingShortens(reference: string)
    ensures |Normalised(reference)| <= |reference|
    ensures |Normalised(reference)| == |reference| ==>
      (reference == "" || !IsSpace(reference[0])) && !Contains(reference, HOST)
  {
    TrimmingShortens(reference);
    UnpastingShortens(TrimSpace(reference));
  }

  /** Text without space at either end or a host's name is read as it stands. */
  lemma PlainIsNormal(text: string)
    requires text != "" && !IsSpace(text[0]) && !IsSpace(text[|text| - 1]) && !Contains(text, HOST)
    ensures Normalised(text) == text
  {
    assert TrimSpace(text) == text;
    IndexOfNone(text, HOST);
  }

  lemma RenderedEnds(p: Pull)
    requires p.owner != ""
    ensures Render(p)[0] == p.owner[0]
    ensures IsDigit(Render(p)[|Render(p)| - 1])
  {
    var digits := Decimal(p.number);
    assert IsDigit(digits[|digits| - 1]);
  }

  lemma WhatReadsBack(p: Pull)
    requires Parse(Render(p)) == Some(p)
    ensures Readable(p) && !IsSpace(p.owner[0]) && !Contains(Render(p), HOST)
  {
    var normal := Normalised(Render(p));
    assert Read(normal) == Some(p);
    ReadIsReadable(normal);
    NormalisingShortens(Render(p));
    RenderedEnds(p);
  }

  lemma WrittenReadsBack(p: Pull)
    requires Readable(p) && !IsSpace(p.owner[0]) && !Contains(Render(p), HOST)
    ensures Parse(Render(p)) == Some(p)
  {
    RenderedEnds(p);
    PlainIsNormal(Render(p));
    PlainReadsBack(p);
  }

  /**
   Parsing a written reference gives the same pull request exactly when its owner is non-empty and has
   no '/', '#' or leading space, its repository is non-empty and has no '#', its number is positive,
   and no "github.com/" makes it look like a URL.
   */
  lemma RoundTrip(p: Pull)
    ensures Parse(Render(p)) == Some(p)
      <==> Readable(p) && !IsSpace(p.owner[0]) && !Contains(Render(p), HOST)
  {
    if Parse(Render(p)) == Some(p) {
      WhatReadsBack(p);
    }
    if Readable(p) && !IsSpace(p.owner[0]) && !Contains(Render(p), HOST) {
      WrittenReadsBack(p);
    }
  }

  // ----- the pasted form -----

  const PREFIX := "https://github.com/"

  /** What may follow the number in a pasted URL: nothing, a query, or more path that is not "/pull/" again. */
  ghost predicate IsTail(tail: string) {
    tail == "" || tail[0] == '?' || (tail[0] == '/' && !(PULL <= tail))
  }

  function Path(p: Pull, tail: string): string {
    p.owner + "/" + p.repository + (PULL + (Decimal(p.number) + tail))
  }

  function Url(p: Pull, tail: string): string {
    PREFIX + Path(p, tail)
  }

  /** The host's name in a pasted URL is the first one. */
  lemma HostIsFirst(rest: string)
    ensures Index(PREFIX + rest, HOST) == 8
  {
    var s := PREFIX + rest;
    assert s[8..] == PREFIX[8..] + rest && PREFIX[8..] == HOST;
    assert OccursAt(s, HOST, 8);
    forall i | 0 <= i < 8 ensures !OccursAt(s, HOST, i) {
      assert s[i] == PREFIX[i] != 'g';
      OccurrenceBegins(s, HOST, i);
    }
    IndexIs(s, HOST, 8);
  }

  /** Space at the end goes, and nothing before it. */
  lemma {:induction false} TrimsOnlyTail(front: string, tail: string)
    requires front != "" && !IsSpace(front[|front| - 1])
    ensures TrimBack(front + tail) == front + TrimBack(tail)
    decreases |tail|
  {
    var s := front + tail;
    if tail == "" {
      assert s == front;
    } else {
      assert s[|s| - 1] == tail[|tail| - 1];
      assert s[..|s| - 1] == front + tail[..|tail| - 1];
      if IsSpace(tail[|tail| - 1]) {
        TrimsOnlyTail(front, tail[..|tail| - 1]);
      }
    }
  }

  /** Text in which no occurrence begins is left alone. */
  lemma {:induction false} FrontSurvives(front: string, rest: string, part: string, with: string)
    requires part != "" && forall i :: 0 <= i < |front| ==> !OccursAt(front + rest, part, i)
    ensures ReplaceAll(front + rest, part, with) == front + ReplaceAll(rest, part, with)
  {
    var s := front + rest;
    if front == "" {
      assert s == rest;
    } else {
      var more := front[1..] + rest;
      assert s[1..] == more;
      forall i | 0 <= i < |front| - 1 ensures !OccursAt(more, part, i) {
        assert more[i..] == s[i + 1..] && !OccursAt(s, part, i + 1);
      }
      FrontSurvives(front[1..], rest, part, with);
      assert s[0..] == s && !OccursAt(s, part, 0);
    }
  }

  lemma DigitsSurvive(digits: string, rest: string)
    requires AllDigits(digits)
    ensures ReplaceAll(digits + rest, PULL, "#") == digits + ReplaceAll(rest, PULL, "#")
  {
    forall i | 0 <= i < |digits| ensures !OccursAt(digits + rest, PULL, i) {
      OccurrenceBegins(digits + rest, PULL, i);
      assert IsDigit((digits + rest)[i]);
    }
    FrontSurvives(digits, rest, PULL, "#");
  }

  lemma TailKeepsItsStart(tail: string)
    requires IsTail(tail)
    ensures var rest := ReplaceAll(tail, PULL, "#");
      if tail == "" then rest == "" else rest != "" && rest[0] == tail[0]
  {
  }

  /** Nothing, or something that ends a number. */
  ghost predicate EndsNumber(rest: string) {
    rest == "" || rest[0] == '/' || rest[0] == '?'
  }

  lemma SlashIsDropped(plain: string, rest: string)
    requires plain != "" && plain[|plain| - 1] != '/' && EndsNumber(rest)
    ensures exists left :: DropSlash(plain + rest) == plain + left && EndsNumber(left)
  {
    if rest == "" {
      assert plain + rest == plain;
      assert DropSlash(plain + rest) == plain + "";
    } else if rest[|rest| - 1] == '/' {
      assert (plain + rest)[..|plain + rest| - 1] == plain + rest[..|rest| - 1];
      assert EndsNumber(rest[..|rest| - 1]);
    } else {
      assert DropSlash(plain + rest) == plain + rest;
    }
  }

  /** A number ends where its digits do. */
  lemma NumberEnds(digits: string, left: string)
    requires AllDigits(digits) && EndsNumber(left)
    ensures IndexAny("#" + digits + left, {'/', '?'}) == if left == "" then -1 else 1 + |digits|
  {
    var s := "#" + digits + left;
    assert s[0] == '#' && forall i :: 0 < i <= |digits| ==> s[i] == digits[i - 1] && IsDigit(s[i]);
    if left == "" {
      IndexAnyIsFirst(s, {'/', '?'});
    } else {
      IndexAnyIs(s, {'/', '?'}, 1 + |digits|);
    }
  }

  /** After the number the rest of a pasted URL is dropped. */
  lemma RestIsDropped(name: string, digits: string, left: string)
    requires Free(name, '#') && AllDigits(digits) && EndsNumber(left)
    ensures DropRest(name + "#" + digits + left) == name + "#" + digits
  {
    var s := name + "#" + digits + left;
    assert s[|name|] == '#' && forall i :: 0 <= i < |name| ==> s[i] == name[i];
    IndexAnyIs(s, {'#'}, |name|);
    assert s[|name|..] == "#" + digits + left;
    NumberEnds(digits, left);
    assert s[..|name| + 1 + |digits|] == name + "#" + digits;
    assert left == "" ==> s == name + "#" + digits;
  }

  /** Where it occurs the part is replaced. */
  lemma PullIsReplaced(name: string, more: string)
    requires forall i :: 0 <= i < |name| ==> !OccursAt(name + (PULL + more), PULL, i)
    ensures ReplaceAll(name + (PULL + more), PULL, "#") == name + "#" + ReplaceAll(more, PULL, "#")
  {
    FrontSurvives(name, PULL + more, PULL, "#");
    assert (PULL + more)[|PULL|..] == more;
    assert name + ("#" + ReplaceAll(more, PULL, "#")) == name + "#" + ReplaceAll(more, PULL, "#");
  }

  /** Before the number, occurrences are those in the name and the slash after it. */
  lemma OccursInName(name: string, more: string, i: int)
    requires 0 <= i < |name|
    ensures OccursAt(name + (PULL + more), PULL, i) <==> OccursAt(name + "/pull", PULL, i)
  {
    var value, part := name + (PULL + more), name + "/pull";
    assert value == part + ("/" + more);
    assert value[i..] == part[i..] + ("/" + more);
  }

  /** The first "/pull/" of a pasted URL is the one before the number. */
  lemma PullIsFirst(name: string, more: string)
    requires !Contains(name + "/pull", PULL)
    ensures ReplaceAll(name + (PULL + more), PULL, "#") == name + "#" + ReplaceAll(more, PULL, "#")
  {
    forall i | 0 <= i < |name| ensures !OccursAt(name + (PULL + more), PULL, i) {
      OccursInName(name, more, i);
    }
    PullIsReplaced(name, more);
  }

  /** What is left after the number, whatever it has become, is dropped. */
  lemma NumberedName(name: string, digits: string, rest: string)
    requires Free(name, '#') && digits != "" && AllDigits(digits) && EndsNumber(rest)
    ensures DropRest(DropSlash(name + "#" + (digits + rest))) == name + "#" + digits
  {
    var plain := name + "#" + digits;
    assert IsDigit(digits[|digits| - 1]);
    assert name + "#" + (digits + rest) == plain + rest;
    SlashIsDropped(plain, rest);
    var left :| DropSlash(plain + rest) == plain + left && EndsNumber(left);
    RestIsDropped(name, digits, left);
  }

  lemma UrlReadsShort(p: Pull, tail: string)
    requires Readable(p) && IsTail(tail)
    requires !Contains(p.owner + "/" + p.repository + "/pull", PULL)
    ensures FromUrl(Path(p, tail)) == Render(p)
  {
    var name, digits := p.owner + "/" + p.repository, Decimal(p.number);
    PullIsFirst(name, digits + tail);
    DigitsSurvive(digits, tail);
    TailKeepsItsStart(tail);
    NumberedName(name, digits, ReplaceAll(tail, PULL, "#"));
  }

  /** An earlier "/pull/" puts a '#' into the name. */
  lemma ShorteningKeepsFront(name: string, more: string)
    requires Contains(name + "/pull", PULL)
    ensures IndexAny(FromUrl(name + (PULL + more)), {'#'}) < |name|
  {
    var value := name + (PULL + more);
    var at := FirstPullIsEarly(name, more);
    var front, rest := value[..at], value[at + |PULL|..];
    assert PULL <= value[at..] && value[at..][|PULL|..] == rest;
    assert value == front + (PULL + rest);
    PullIsReplaced(front, rest);
    FirstHashStays(front + "#" + ReplaceAll(rest, PULL, "#"), at);
  }

  lemma FirstPullIsEarly(name: string, more: string) returns (at: nat)
    requires Contains(name + "/pull", PULL)
    ensures var value := name + (PULL + more);
      at < |name| && OccursAt(value, PULL, at) && forall i :: 0 <= i < at ==> !OccursAt(value, PULL, i)
  {
    var value := name + (PULL + more);
    var i :| OccursAt(name + "/pull", PULL, i);
    assert i < |name|;
    OccursInName(name, more, i);
    IndexFromIsFirst(value, PULL, 0);
    assert Index(value, PULL) != -1;
    at := Index(value, PULL);
  }

  lemma FirstHashStays(s: string, at: nat)
    requires at < |s| && s[at] == '#'
    ensures IndexAny(DropRest(DropSlash(s)), {'#'}) <= at
  {
    var t := DropSlash(s);
    assert t[at] == '#';
    IndexAnyIsFirst(t, {'#'});
    var u := DropRest(t);
    IndexAnyIsFirst(u, {'#'});
    var cut := IndexAny(t, {'#'});
    assert cut <= at;
    assert |u| > cut && u[cut] == '#';
  }

  lemma UrlSplits(p: Pull, tail: string)
    ensures Url(p, tail) == Url(p, "") + tail
    ensures Url(p, "")[0] == 'h'
    ensures var front := Url(p, ""); IsDigit(front[|front| - 1])
  {
    var name, digits := p.owner + "/" + p.repository, Decimal(p.number);
    assert Url(p, "") == PREFIX + (name + PULL) + digits;
    assert IsDigit(digits[|digits| - 1]);
  }

  lemma TrimSpaceOnlyTrimsTail(front: string, tail: string)
    requires front != "" && !IsSpace(front[0]) && !IsSpace(front[|front| - 1])
    ensures TrimSpace(front + tail) == front + TrimBack(tail)
  {
    TrimsOnlyTail(front, tail);
    assert (front + tail)[0] == front[0];
  }

  lemma UrlIsTrimmed(p: Pull, tail: string)
    ensures TrimSpace(Url(p, tail)) == Url(p, TrimBack(tail))
  {
    UrlSplits(p, tail);
    UrlSplits(p, TrimBack(tail));
    TrimSpaceOnlyTrimsTail(Url(p, ""), tail);
  }

  lemma UnpastesAfterHost(more: string)
    ensures Unpasted(PREFIX + more) == FromUrl(more)
  {
    HostIsFirst(more);
    assert (PREFIX + more)[8 + |HOST|..] == more;
  }

  /** What remains of a pasted URL is what follows the host's name. */
  lemma UrlIsNormalised(p: Pull, tail: string)
    ensures Normalised(Url(p, tail)) == FromUrl(Path(p, TrimBack(tail)))
  {
    UrlIsTrimmed(p, tail);
    UnpastesAfterHost(Path(p, TrimBack(tail)));
  }

  // ----- what spoils a pasted form -----

  lemma TailStartsBadly(tail: string)
    requires !IsTail(tail)
    ensures var rest := ReplaceAll(tail, PULL, "#");
      !EndsNumber(rest) && (tail[0] == '#' ==> rest[0] == '#')
  {
  }

  /** Dropping a slash at the end leaves a bad start where it is. */
  lemma BadStartOutlivesSlash(plain: string, rest: string)
    requires !EndsNumber(rest)
    ensures exists left :: DropSlash(plain + rest) == plain + left && !EndsNumber(left) && left[0] == rest[0]
  {
    if rest[|rest| - 1] == '/' {
      assert (plain + rest)[..|plain + rest| - 1] == plain + rest[..|rest| - 1];
      assert !EndsNumber(rest[..|rest| - 1]);
    } else {
      assert DropSlash(plain + rest) == plain + rest;
    }
  }

  lemma NumberGoesOn(digits: string, left: string)
    requires AllDigits(digits) && !EndsNumber(left)
    ensures var end := IndexAny("#" + digits + left, {'/', '?'}); end == -1 || end > 1 + |digits|
  {
    var s := "#" + digits + left;
    assert s[0] == '#' && s[1 + |digits|] == left[0];
    assert forall i :: 0 < i <= |digits| ==> s[i] == digits[i - 1] && IsDigit(s[i]);
    IndexAnyIsFirst(s, {'/', '?'});
  }

  /** What follows the digits without ending them is taken for part of the number. */
  lemma BadStartOutlivesRest(name: string, digits: string, left: string)
    requires Free(name, '#') && AllDigits(digits) && !EndsNumber(left)
    ensures exists more :: more != "" && more[0] == left[0]
                           && DropRest(name + "#" + digits + left) == name + "#" + (digits + more)
  {
    var s := name + "#" + digits + left;
    assert s[|name|] == '#' && forall i :: 0 <= i < |name| ==> s[i] == name[i];
    IndexAnyIs(s, {'#'}, |name|);
    assert s[|name|..] == "#" + digits + left;
    NumberGoesOn(digits, left);
    var end := IndexAny(s[|name|..], {'/', '?'});
    if end == -1 {
      assert s == name + "#" + (digits + left);
    } else {
      var more := left[..end - 1 - |digits|];
      assert s[..|name| + end] == name + "#" + (digits + more);
    }
  }

  lemma {:induction false} LongerIsTenfold(digits: string, more: string)
    requires AllDigits(digits + more) && AllDigits(digits) && more != ""
    ensures NumberOf(digits + more) >= 10 * NumberOf(digits)
    decreases |more|
  {
    var s := digits + more;
    var less := more[..|more| - 1];
    assert s[..|s| - 1] == digits + less;
    if less == "" {
      assert s[..|s| - 1] == digits;
    } else {
      LongerIsTenfold(digits, less);
    }
  }

  lemma SpoiltNumber(n: nat, more: string)
    requires 0 < n && more != ""
    ensures Atoi(Digits(n) + more) != Some(n)
    ensures !IsDigit(more[0]) ==> Atoi(Digits(n) + more) == None
  {
    var s := Digits(n) + more;
    assert s[0] == Digits(n)[0] && IsDigit(s[0]);
    assert s[|Digits(n)|] == more[0];
    if AllDigits(s) {
      LongerIsTenfold(Digits(n), more);
      DigitsReadBack(n);
    }
  }

  lemma SpoiltName(p: Pull, more: string)
    requires Readable(p) && more != ""
    ensures var value := p.owner + "/" + p.repository + "#" + (Decimal(p.number) + more);
      Read(value) != Some(p) && (!IsDigit(more[0]) ==> Read(value).None?)
  {
    var name, digits := p.owner + "/" + p.repository, Decimal(p.number) + more;
    var value := name + "#" + digits;
    assert value[|name|] == '#' && Free(name, '#') && forall i :: 0 <= i < |name| ==> value[i] == name[i];
    IndexAnyIs(value, {'#'}, |name|);
    assert value[|name| + 1..] == digits;
    SpoiltNumber(p.number, more);
  }

  /** A tail that does not end the number spoils it. */
  lemma BadTailSpoils(p: Pull, tail: string)
    requires Readable(p) && !IsTail(tail)
    requires !Contains(p.owner + "/" + p.repository + "/pull", PULL)
    ensures Read(FromUrl(Path(p, tail))) != Some(p)
    ensures tail[0] == '#' ==> Read(FromUrl(Path(p, tail))).None?
  {
    var name, digits := p.owner + "/" + p.repository, Decimal(p.number);
    var rest := ReplaceAll(tail, PULL, "#");
    PullIsFirst(name, digits + tail);
    DigitsSurvive(digits, tail);
    TailStartsBadly(tail);
    var more := SpoiltRest(name, digits, rest);
    SpoiltName(p, more);
  }

  lemma SpoiltRest(name: string, digits: string, rest: string) returns (more: string)
    requires Free(name, '#') && AllDigits(digits) && !EndsNumber(rest)
    ensures more != "" && more[0] == rest[0]
    ensures DropRest(DropSlash(name + "#" + (digits + rest))) == name + "#" + (digits + more)
  {
    var plain := name + "#" + digits;
    assert name + "#" + (digits + rest) == plain + rest;
    BadStartOutlivesSlash(plain, rest);
    var left :| DropSlash(plain + rest) == plain + left && !EndsNumber(left) && left[0] == rest[0];
    BadStartOutlivesRest(name, digits, left);
    more :| more != "" && more[0] == left[0] && DropRest(plain + left) == name + "#" + (digits + more);
  }

  /**
   Parsing a pasted URL gives the pull request it names exactly when the parts are readable, no earlier
   "/pull/" gets in the way, and what follows the number, less space at the end, is nothing, a query or
   more path. A fragment is none of these.
   */
  lemma PastedRoundTrip(p: Pull, tail: string)
    ensures Parse(Url(p, tail)) == Some(p)
      <==> Readable(p) && !Contains(p.owner + "/" + p.repository + "/pull", PULL) && IsTail(TrimBack(tail))
  {
    var name := p.owner + "/" + p.repository;
    var end := TrimBack(tail);
    UrlIsNormalised(p, tail);
    if Parse(Url(p, tail)) == Some(p) {
      ReadIsReadable(Normalised(Url(p, tail)));
      if Contains(name + "/pull", PULL) {
        ShorteningKeepsFront(name, Decimal(p.number) + end);
      } else if !IsTail(end) {
        BadTailSpoils(p, end);
      }
    }
    if Readable(p) && !Contains(name + "/pull", PULL) && IsTail(end) {
      UrlReadsShort(p, end);
      PlainReadsBack(p);
    }
  }

  lemma {:induction false} TrimBackKeepsStart(s: string)
    requires s != "" && !IsSpace(s[0])
    ensures TrimBack(s) != "" && TrimBack(s)[0] == s[0]
  {
    if IsSpace(s[|s| - 1]) {
      TrimBackKeepsStart(s[..|s| - 1]);
    }
  }

  /** A link to one comment of a pull request is refused, whatever the fragment says. */
  lemma FragmentIsRefused(p: Pull, fragment: string)
    requires Readable(p) && !Contains(p.owner + "/" + p.repository + "/pull", PULL)
    ensures Parse(Url(p, "#" + fragment)).None?
  {
    var tail := "#" + fragment;
    UrlIsNormalised(p, tail);
    TrimBackKeepsStart(tail);
    BadTailSpoils(p, TrimBack(tail));
  }

  lemma PlainNameIsClean()
    ensures !Contains("o" + "/" + "r" + "/pull", PULL)
  {
    var s := "o/r/pull";
    assert s == "o" + "/" + "r" + "/pull";
    forall i ensures !OccursAt(s, PULL, i) {
      OccurrenceBegins(s, PULL, i);
      if i == 1 {
        assert s[i..][1] == 'r' && PULL[1] == 'p';
      }
    }
  }

  lemma TwelveIsWritten(n: int)
    requires n == 12
    ensures Decimal(n) == "12"
  {
    assert n / 10 == 1 && n % 10 == 2;
    assert Digits(n / 10) == [DigitOf(1)];
  }

  lemma PermalinkIsUrl(p: Pull, tail: string)
    requires p.owner == "o" && p.repository == "r" && Decimal(p.number) == "12"
    ensures Url(p, tail) == "https://github.com/" + ("o/r/pull/12" + tail)
  {
    var front := p.owner + "/" + p.repository + PULL + Decimal(p.number);
    assert front == "o/r/pull/12";
    assert Path(p, tail) == front + tail;
  }

  /** For one: the address a browser shows for a comment. */
  lemma PermalinkIsRefused() returns (url: string)
    ensures url == "https://github.com/" + ("o/r/pull/12" + "#issuecomment-1") && Parse(url).None?
  {
    var p, fragment := Pull("o", "r", 12), "issuecomment-1";
    TwelveIsWritten(p.number);
    PermalinkIsUrl(p, "#" + fragment);
    assert "#" + fragment == "#issuecomment-1";
    PlainNameIsClean();
    FragmentIsRefused(p, fragment);
    url := Url(p, "#" + fragment);
  }
}
