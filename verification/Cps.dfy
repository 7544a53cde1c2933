/**
 * Custom packet signatures: the encoder prints a packet as literals and random spans, and the
 * validator reads such text back. Printer and parser agree.
 */
module Cps {
  import opened Numbers
  import opened Wrappers

  const MAX_PACKET_SIZE := 1232
  const CHUNK := 480
  const MAX_TEXT := 150_000
  const MAX_PAYLOAD := 65_507

  // ---------------------------------------------------------------- digits

  predicate Digit(c: char) { '0' <= c <= '9' }

  predicate HexDigit(c: char) { Digit(c) || 'a' <= c <= 'f' || 'A' <= c <= 'F' }

  function HexChar(n: int): (c: char)
    requires 0 <= n < 16
    ensures HexDigit(c)
  {
    if n < 10 then '0' + n as char else 'a' + (n - 10) as char
  }

  function HexValue(c: char): (n: int)
    requires HexDigit(c)
    ensures 0 <= n < 16
  {
    if Digit(c) then (c - '0') as int else if 'a' <= c <= 'f' then (c - 'a') as int + 10 else (c - 'A') as int + 10
  }

  /** Both cases of the letters are digits, with the same value. */
  lemma HexDigits(c: char)
    ensures HexDigit(c) <==> c in "0123456789abcdefABCDEF"
    ensures 'A' <= c <= 'F' ==> HexValue(c) == HexValue((c as int + 32) as char)
  {
  }

  function Hex(bytes: seq<Byte>): (s: string)
    ensures |s| == 2 * |bytes| && forall i :: 0 <= i < |s| ==> HexDigit(s[i])
  {
    if bytes == [] then ""
    else [HexChar(bytes[0] as int / 16), HexChar(bytes[0] as int % 16)] + Hex(bytes[1..])
  }

  function Unhex(s: string): (bytes: seq<Byte>)
    requires |s| % 2 == 0 && forall i :: 0 <= i < |s| ==> HexDigit(s[i])
    ensures |bytes| == |s| / 2
  {
    if s == "" then []
    else [(HexValue(s[0]) * 16 + HexValue(s[1])) as Byte] + Unhex(s[2..])
  }

  lemma {:induction false} HexRoundTrip(bytes: seq<Byte>)
    ensures Unhex(Hex(bytes)) == bytes
  {
    if bytes != [] {
      HexRoundTrip(bytes[1..]);
      assert Hex(bytes)[2..] == Hex(bytes[1..]);
    }
  }

  function Decimal(n: nat): (s: string)
    ensures s != "" && forall i :: 0 <= i < |s| ==> Digit(s[i])
  {
    (if n < 10 then "" else Decimal(n / 10)) + ['0' + (n % 10) as char]
  }

  function DigitValue(c: char): nat
    requires Digit(c)
  {
    c as int - '0' as int
  }

  function Number(s: string): nat
    requires forall i :: 0 <= i < |s| ==> Digit(s[i])
  {
    if s == "" then 0 else 10 * Number(s[..|s| - 1]) + DigitValue(s[|s| - 1])
  }

  lemma {:induction false} DecimalRoundTrip(n: nat)
    ensures Number(Decimal(n)) == n && |Decimal(n)| <= n + 1
  {
    var s := Decimal(n);
    if n >= 10 {
      DecimalRoundTrip(n / 10);
      assert s[..|s| - 1] == Decimal(n / 10);
    }
  }

  // ---------------------------------------------------------------- printing

  datatype Item = Literal(bytes: seq<Byte>) | Random(tag: string, length: nat)

  predicate Tag(tag: string) { tag == "r" || tag == "rc" || tag == "rd" }

  predicate Printable(item: Item) {
    match item
    case Literal(bytes) => bytes != []
    case Random(tag, length) => Tag(tag) && 1 <= length <= MAX_PACKET_SIZE
  }

  function Bracketed(head: string, digits: string): string {
    head + digits + ">"
  }

  function Head(tag: string): string {
    "<" + tag + " "
  }

  function PrintItem(item: Item): string {
    match item
    case Literal(bytes) => Bracketed("<b 0x", Hex(bytes))
    case Random(tag, length) => Bracketed(Head(tag), Decimal(length))
  }

  function Concat<T>(parts: seq<seq<T>>): seq<T> {
    if parts == [] then [] else parts[0] + Concat(parts[1..])
  }

  function Texts(items: seq<Item>): seq<string> {
    seq(|items|, i requires 0 <= i < |items| => PrintItem(items[i]))
  }

  function Print(items: seq<Item>): string {
    Concat(Texts(items))
  }

  lemma {:induction false} ConcatJoins<T>(a: seq<seq<T>>, b: seq<seq<T>>)
    ensures Concat(a + b) == Concat(a) + Concat(b)
  {
    if a == [] {
      assert a + b == b;
    } else {
      ConcatJoins(a[1..], b);
      assert (a + b)[1..] == a[1..] + b;
      assert a[0] + (Concat(a[1..]) + Concat(b)) == (a[0] + Concat(a[1..])) + Concat(b);
    }
  }

  // ---------------------------------------------------------------- parsing

  /** Unicode white space. */
  predicate Space(c: char) {
    || c == ' ' || '\t' <= c <= '\r' || c == '\U{0085}' || c == '\U{00A0}' || c == '\U{1680}' || '\U{2000}' <= c <= '\U{200A}'
    || c == '\U{2028}' || c == '\U{2029}' || c == '\U{202F}' || c == '\U{205F}' || c == '\U{3000}'
  }

  /** A tag as the pattern captures it. */
  datatype Match = HexTag(digits: string) | RandomTag(tag: string, digits: string) | ClockTag {
    predicate WellFormed() {
      match this
      case HexTag(digits) => digits != "" && forall i :: 0 <= i < |digits| ==> HexDigit(digits[i])
      case RandomTag(tag, digits) => Tag(tag) && digits != "" && forall i :: 0 <= i < |digits| ==> Digit(digits[i])
      case ClockTag => true
    }

    predicate Valid()
      requires WellFormed()
    {
      match this
      case HexTag(digits) => |digits| % 2 == 0
      case RandomTag(_, digits) => 0 < Number(digits) < 65_536
      case ClockTag => true
    }

    /** The bytes that a valid tag stands for. */
    function Size(): nat
      requires WellFormed()
    {
      match this
      case HexTag(digits) => |digits| / 2
      case RandomTag(_, digits) => Number(digits)
      case ClockTag => 4
    }
  }

  /** The longest prefix of characters of one kind. */
  function RunOf(s: string, kind: char -> bool): (n: nat)
    ensures n <= |s| && forall i :: 0 <= i < n ==> kind(s[i])
    ensures n < |s| ==> !kind(s[n])
  {
    if s == "" || !kind(s[0]) then 0 else 1 + RunOf(s[1..], kind)
  }

  /** Digits of one kind up to a closing bracket. */
  function Captured(s: string, kind: char -> bool): (r: Option<string>)
    ensures r.Some? ==> r.value != "" && |r.value| < |s| && forall i :: 0 <= i < |r.value| ==> kind(r.value[i])
  {
    var n := RunOf(s, kind);
    if 0 < n < |s| && s[n] == '>' then Some(s[..n]) else None
  }

  function RandomAt(s: string, tag: string): (r: Option<(Match, nat)>)
    requires Tag(tag) && |tag| + 2 <= |s|
    ensures r.Some? ==> r.value.0.WellFormed() && 0 < r.value.1 <= |s|
  {
    match Captured(s[|tag| + 2..], Digit)
    case None => None
    case Some(digits) => Some((RandomTag(tag, digits), |tag| + 2 + |digits| + 1))
  }

  function HexAt(s: string): (r: Option<(Match, nat)>)
    requires 5 <= |s|
    ensures r.Some? ==> r.value.0.WellFormed() && 0 < r.value.1 <= |s|
  {
    match Captured(s[5..], HexDigit)
    case None => None
    case Some(digits) => Some((HexTag(digits), 5 + |digits| + 1))
  }

  /** The pattern at the start of a text: the tag and its length. */
  function TagAt(s: string): (r: Option<(Match, nat)>)
    ensures r.Some? ==> r.value.0.WellFormed() && 0 < r.value.1 <= |s| && s[0] == '<'
  {
    if |s| < 3 || s[0] != '<' then None
    else if |s| >= 5 && s[1] == 'b' && s[2] == ' ' && s[3] == '0' && s[4] == 'x' then HexAt(s)
    else if s[1] == 'r' && s[2] == ' ' then RandomAt(s, "r")
    else if |s| >= 4 && s[1] == 'r' && s[2] == 'c' && s[3] == ' ' then RandomAt(s, "rc")
    else if |s| >= 4 && s[1] == 'r' && s[2] == 'd' && s[3] == ' ' then RandomAt(s, "rd")
    else if s[1] == 't' && s[2] == '>' then Some((ClockTag, 3))
    else None
  }

  function Prepend(tags: seq<Match>, rest: Option<seq<Match>>): Option<seq<Match>> {
    if rest.None? then None else Some(tags + rest.value)
  }

  /** Something that recognises a tag at the start of a text, as `TagAt` does. */
  type Matcher = string -> Option<(Match, nat)>

  ghost predicate Advances(m: Matcher) {
    forall s :: m(s).Some? ==> 0 < m(s).value.1 <= |s| && s[0] == '<'
  }

  ghost predicate Proper(m: Matcher) {
    Advances(m) && forall s :: m(s).Some? ==> m(s).value.0.WellFormed()
  }

  /** Reference grammar: tags, with white space anywhere between them. */
  ghost function Parse(s: string, m: Matcher): (r: Option<seq<Match>>)
    requires Advances(m)
    decreases |s|
  {
    if s == "" then Some([])
    else if Space(s[0]) then Parse(s[1..], m)
    else match m(s)
      case None => None
      case Some(found) => Prepend([found.0], Parse(s[found.1..], m))
  }

  predicate AllWellFormed(tags: seq<Match>) {
    forall i :: 0 <= i < |tags| ==> tags[i].WellFormed()
  }

  function TotalSize(tags: seq<Match>): nat
    requires AllWellFormed(tags)
  {
    if tags == [] then 0 else TotalSize(tags[..|tags| - 1]) + tags[|tags| - 1].Size()
  }

  predicate AllValid(tags: seq<Match>)
    requires AllWellFormed(tags)
  {
    forall i :: 0 <= i < |tags| ==> tags[i].Valid()
  }

  predicate SingleLine(s: string) {
    '\r' !in s && '\n' !in s && '\0' !in s
  }

  /** Well-formed tags that the validator lets through. */
  predicate Admissible(tags: seq<Match>)
    requires AllWellFormed(tags)
  {
    AllValid(tags) && TotalSize(tags) <= MAX_PAYLOAD
  }

  /** What the validator is to accept. */
  ghost predicate Accepts(s: string, m: Matcher)
    requires Advances(m)
  {
    && SingleLine(s)
    && (s == "" || (|s| <= MAX_TEXT && Parse(s, m).Some? && AcceptsTags(Parse(s, m).value)))
  }

  predicate AcceptsTags(tags: seq<Match>) {
    tags != [] && AllWellFormed(tags) && Admissible(tags)
  }

  /** A tag that says something: whole bytes, or a span of between one and 65,535 bytes. */
  predicate Sensible(tag: Match)
    requires tag.WellFormed()
  {
    match tag
    case HexTag(digits) => |digits| % 2 == 0
    case RandomTag(_, digits) => 1 <= Number(digits) <= 65_535
    case ClockTag => true
  }

  /** Sensible tags that fit a datagram. */
  predicate Fitting(tags: seq<Match>) {
    tags != [] && AllWellFormed(tags) && (forall i :: 0 <= i < |tags| ==> Sensible(tags[i])) && TotalSize(tags) <= 65_507
  }

  lemma FittingIff(tags: seq<Match>)
    ensures AcceptsTags(tags) <==> Fitting(tags)
  {
    if AllWellFormed(tags) {
      assert forall i :: 0 <= i < |tags| ==> (tags[i].Valid() <==> Sensible(tags[i]));
    }
  }

  /** Accepted is nothing at all, or a short single line of fitting tags. */
  lemma AcceptsIff(s: string, m: Matcher)
    requires Proper(m)
    ensures Accepts(s, m) <==>
            && '\r' !in s && '\n' !in s && '\0' !in s
            && (s == "" || (|s| <= 150_000 && Parse(s, m).Some? && Fitting(Parse(s, m).value)))
  {
    var tags := Parse(s, m);
    if tags.Some? { FittingIff(tags.value); }
  }

  predicate AllSpace(s: string) {
    forall i :: 0 <= i < |s| ==> Space(s[i])
  }

  // ---------------------------------------------------------------- the validator

  lemma {:induction false} SkipSpace(gap: string, rest: string, m: Matcher)
    requires Advances(m) && AllSpace(gap)
    ensures Parse(gap + rest, m) == Parse(rest, m)
  {
    if gap == "" {
      assert gap + rest == rest;
    } else {
      SkipSpace(gap[1..], rest, m);
      assert (gap + rest)[1..] == gap[1..] + rest;
    }
  }

  /** A text whose first visible character starts no tag does not parse. */
  lemma {:induction false} Stuck(s: string, n: nat, m: Matcher)
    requires Advances(m) && n <= |s| && !AllSpace(s[..n]) && forall i :: 0 <= i < n ==> m(s[i..]).None?
    ensures Parse(s, m).None?
  {
    assert s[0..] == s;
    if Space(s[0]) {
      forall i | 0 <= i < n - 1 ensures m(s[1..][i..]).None? {
        assert s[1..][i..] == s[i + 1..];
      }
      if AllSpace(s[1..][..n - 1]) {
        forall i | 0 <= i < n ensures Space(s[i]) {
          if i > 0 { assert s[1..][..n - 1][i - 1] == s[i]; }
        }
      }
      Stuck(s[1..], n - 1, m);
    }
  }

  /** The next match of the pattern, as a search from left to right finds it. */
  method NextMatch(s: string, from: nat, m: Matcher) returns (found: Option<nat>)
    requires from <= |s| && Advances(m)
    ensures found.Some? ==> from <= found.value < |s| && m(s[found.value..]).Some?
    ensures forall i :: from <= i < (if found.Some? then found.value else |s|) ==> m(s[i..]).None?
  {
    for i := from to |s|
      invariant forall k :: from <= k < i ==> m(s[k..]).None?
    {
      if m(s[i..]).Some? {
        return Some(i);
      }
    }
    return None;
  }

  lemma RestStuck(s: string, end: nat, j: nat, m: Matcher)
    requires Advances(m) && end <= j <= |s| && !AllSpace(s[end..j]) && forall i :: end <= i < j ==> m(s[i..]).None?
    ensures Parse(s[end..], m).None?
  {
    var t := s[end..];
    assert t[..j - end] == s[end..j];
    forall i | 0 <= i < j - end ensures m(t[i..]).None? {
      assert t[i..] == s[end + i..];
    }
    Stuck(t, j - end, m);
  }

  lemma RestIsTag(s: string, end: nat, j: nat, m: Matcher)
    requires Advances(m) && end <= j < |s| && AllSpace(s[end..j]) && m(s[j..]).Some?
    ensures var found := m(s[j..]).value;
            Parse(s[end..], m) == Prepend([found.0], Parse(s[j + found.1..], m))
  {
    var found := m(s[j..]).value;
    assert s[end..] == s[end..j] + s[j..];
    SkipSpace(s[end..j], s[j..], m);
    assert s[j..][found.1..] == s[j + found.1..];
  }

  lemma RestIsSpace(s: string, end: nat, m: Matcher)
    requires Advances(m) && end <= |s| && AllSpace(s[end..])
    ensures Parse(s[end..], m) == Some([])
  {
    assert s[end..] == s[end..] + "";
    SkipSpace(s[end..], "", m);
  }

  lemma PrependTwice(a: seq<Match>, b: seq<Match>, rest: Option<seq<Match>>)
    ensures Prepend(a, Prepend(b, rest)) == Prepend(a + b, rest)
    ensures Prepend([], rest) == rest
  {
    if rest.Some? {
      assert a + (b + rest.value) == (a + b) + rest.value;
      assert [] + rest.value == rest.value;
    }
  }

  lemma {:induction false} SizeGrows(a: seq<Match>, b: seq<Match>)
    requires AllWellFormed(a + b) && AllWellFormed(a)
    ensures TotalSize(a) <= TotalSize(a + b)
    decreases |b|
  {
    if b == [] {
      assert a + b == a;
    } else {
      var init := b[..|b| - 1];
      assert (a + b)[..|a + b| - 1] == a + init;
      SizeGrows(a, init);
    }
  }

  /** Once a tag is invalid or the payload too large, nothing that follows makes the text acceptable. */
  lemma Rejected(tags: seq<Match>, rest: seq<Match>)
    requires AllWellFormed(tags) && AllWellFormed(tags + rest) && !Admissible(tags)
    ensures !Admissible(tags + rest)
  {
    if !AllValid(tags) {
      var i :| 0 <= i < |tags| && !tags[i].Valid();
      assert (tags + rest)[i] == tags[i];
    } else {
      SizeGrows(tags, rest);
    }
  }

  /** How far the validator has read: the tags up to a position, and what is left of the text. */
  ghost predicate ReadTo(s: string, end: nat, tags: seq<Match>, m: Matcher)
    requires Advances(m)
  {
    end <= |s| && Parse(s, m) == Prepend(tags, Parse(s[end..], m))
  }

  lemma ReadOn(s: string, end: nat, j: nat, tags: seq<Match>, m: Matcher)
    requires Advances(m) && ReadTo(s, end, tags, m) && end <= j < |s| && AllSpace(s[end..j]) && m(s[j..]).Some?
    ensures var found := m(s[j..]).value;
            j + found.1 <= |s| && ReadTo(s, j + found.1, tags + [found.0], m)
  {
    var found := m(s[j..]).value;
    RestIsTag(s, end, j, m);
    Chained(Parse(s, m), tags, Parse(s[end..], m), found.0, Parse(s[j + found.1..], m));
  }

  lemma Chained(all: Option<seq<Match>>, tags: seq<Match>, left: Option<seq<Match>>, tag: Match, rest: Option<seq<Match>>)
    requires all == Prepend(tags, left) && left == Prepend([tag], rest)
    ensures all == Prepend(tags + [tag], rest)
  {
    PrependTwice(tags, [tag], rest);
  }

  lemma ReadRejects(s: string, end: nat, tags: seq<Match>, m: Matcher)
    requires Advances(m) && ReadTo(s, end, tags, m) && AllWellFormed(tags) && !Admissible(tags) && s != ""
    ensures !Accepts(s, m)
  {
    var rest := Parse(s[end..], m);
    if rest.Some? && AllWellFormed(tags + rest.value) {
      Rejected(tags, rest.value);
    }
  }

  /** The tag's own condition and the payload limit. */
  method AddTag(tag: Match, size: nat, ghost tags: seq<Match>) returns (ok: bool, total: nat)
    requires AllWellFormed(tags) && tag.WellFormed() && AllValid(tags) && size == TotalSize(tags)
    ensures AllWellFormed(tags + [tag]) && (ok <==> Admissible(tags + [tag]))
    ensures ok ==> total == TotalSize(tags + [tag])
  {
    OneMoreTag(tags, tag);
    total := size;
    if !tag.Valid() {
      return false, total;
    }
    total := size + tag.Size();
    ok := total <= MAX_PAYLOAD;
  }

  lemma OneMoreTag(tags: seq<Match>, tag: Match)
    requires AllWellFormed(tags) && tag.WellFormed()
    ensures AllWellFormed(tags + [tag]) && TotalSize(tags + [tag]) == TotalSize(tags) + tag.Size()
    ensures AllValid(tags + [tag]) <==> AllValid(tags) && tag.Valid()
  {
    var more := tags + [tag];
    assert more[..|more| - 1] == tags && more[|tags|] == tag;
    assert AllValid(more) ==> forall i :: 0 <= i < |tags| ==> more[i] == tags[i] && tags[i].Valid();
  }

  /** One round of the loop: only white space before the match, and the tag is admitted. */
  method TakeMatch(s: string, end: nat, j: nat, size: nat, m: Matcher, ghost tags: seq<Match>) returns (ok: bool, tag: Match, next: nat, total: nat)
    requires Proper(m) && end <= j < |s| && m(s[j..]).Some? && forall i :: end <= i < j ==> m(s[i..]).None?
    requires ReadTo(s, end, tags, m) && AllWellFormed(tags) && AllValid(tags) && size == TotalSize(tags)
    ensures !ok ==> !Accepts(s, m)
    ensures ok ==> end < next && ReadTo(s, next, tags + [tag], m)
    ensures ok ==> AllWellFormed(tags + [tag]) && Admissible(tags + [tag]) && total == TotalSize(tags + [tag])
  {
    tag, next, total := m(s[j..]).value.0, j + m(s[j..]).value.1, size;
    if !AllSpace(s[end..j]) {
      RestStuck(s, end, j, m);
      return false, tag, next, total;
    }
    ReadOn(s, end, j, tags, m);
    ok, total := AddTag(tag, size, tags);
    if !ok {
      ReadRejects(s, next, tags + [tag], m);
    }
  }

  /** After the last match only white space may follow. */
  lemma ScanEnds(s: string, end: nat, tags: seq<Match>, m: Matcher)
    requires Proper(m) && s != "" && |s| <= MAX_TEXT && SingleLine(s)
    requires ReadTo(s, end, tags, m) && AllWellFormed(tags) && Admissible(tags) && (end == 0 <==> tags == [])
    requires forall i :: end <= i < |s| ==> m(s[i..]).None?
    ensures Accepts(s, m) <==> AllSpace(s[end..]) && end != 0
    ensures Accepts(s, m) ==> Parse(s, m) == Some(tags)
  {
    if !AllSpace(s[end..]) {
      assert s[end..|s|] == s[end..];
      RestStuck(s, end, |s|, m);
    } else {
      RestIsSpace(s, end, m);
      assert tags + [] == tags;
    }
  }

  /** The validator's loop over all matches of a pattern. */
  method Scan(value: string, m: Matcher) returns (ok: bool, size: nat)
    requires Proper(m) && value != "" && |value| <= MAX_TEXT && SingleLine(value)
    ensures ok <==> Accepts(value, m)
    ensures ok ==> size == TotalSize(Parse(value, m).value)
  {
    size := 0;
    var end := 0;
    ghost var tags: seq<Match> := [];
    var found := NextMatch(value, 0, m);
    assert value[0..] == value;
    PrependTwice([], [], Parse(value, m));
    while found.Some?
      invariant ReadTo(value, end, tags, m) && AllWellFormed(tags) && AllValid(tags)
      invariant size == TotalSize(tags) <= MAX_PAYLOAD && (end == 0 <==> tags == [])
      invariant found.Some? ==> end <= found.value < |value| && m(value[found.value..]).Some?
      invariant forall i :: end <= i < (if found.Some? then found.value else |value|) ==> m(value[i..]).None?
      decreases |value| - end, found.Some?
    {
      var tag;
      ok, tag, end, size := TakeMatch(value, end, found.value, size, m, tags);
      if !ok {
        return;
      }
      tags := tags + [tag];
      found := NextMatch(value, end, m);
    }
    ScanEnds(value, end, tags, m);
    ok := AllSpace(value[end..]) && end != 0;
  }

  lemma TagAtIsProper()
    ensures Proper(TagAt)
  {
  }

  /** `ValidateCPS` accepts exactly the grammar, and its accumulated size is the size of the tags. */
  method ValidateCPS(value: string) returns (ok: bool, size: nat)
    ensures Proper(TagAt)
    ensures ok <==> Accepts(value, TagAt)
    ensures ok && value != "" ==> size == TotalSize(Parse(value, TagAt).value)
  {
    TagAtIsProper();
    if !SingleLine(value) {
      return false, 0;
    }
    if value == "" {
      return true, 0;
    }
    if |value| > MAX_TEXT {
      return false, 0;
    }
    ok, size := Scan(value, TagAt);
  }

  // ---------------------------------------------------------------- printing, then parsing

  lemma {:induction false} RunStops(digits: string, rest: string, kind: char -> bool)
    requires (forall i :: 0 <= i < |digits| ==> kind(digits[i])) && rest != "" && !kind(rest[0])
    ensures RunOf(digits + rest, kind) == |digits|
  {
    if digits == "" {
      assert digits + rest == rest;
    } else {
      RunStops(digits[1..], rest, kind);
      assert (digits + rest)[1..] == digits[1..] + rest;
    }
  }

  lemma CapturedPrinted(digits: string, rest: string, kind: char -> bool)
    requires digits != "" && (forall i :: 0 <= i < |digits| ==> kind(digits[i])) && !kind('>')
    ensures Captured(digits + (">" + rest), kind) == Some(digits)
  {
    RunStops(digits, ">" + rest, kind);
  }

  lemma Sliced(head: string, digits: string, rest: string)
    ensures var s := Bracketed(head, digits) + rest;
            |head| <= |s| && s[|head|..] == digits + (">" + rest) && forall i :: 0 <= i < |head| ==> s[i] == head[i]
  {
  }

  function TagOf(item: Item): Match {
    match item
    case Literal(bytes) => HexTag(Hex(bytes))
    case Random(tag, length) => RandomTag(tag, Decimal(length))
  }

  lemma LiteralReadBack(digits: string, rest: string)
    requires digits != "" && forall i :: 0 <= i < |digits| ==> HexDigit(digits[i])
    ensures TagAt(Bracketed("<b 0x", digits) + rest) == Some((HexTag(digits), |Bracketed("<b 0x", digits)|))
  {
    Sliced("<b 0x", digits, rest);
    CapturedPrinted(digits, rest, HexDigit);
  }

  lemma RandomReadBack(tag: string, digits: string, rest: string)
    requires Tag(tag) && digits != "" && forall i :: 0 <= i < |digits| ==> Digit(digits[i])
    ensures TagAt(Bracketed(Head(tag), digits) + rest) == Some((RandomTag(tag, digits), |Bracketed(Head(tag), digits)|))
  {
    var s := Bracketed(Head(tag), digits) + rest;
    Sliced(Head(tag), digits, rest);
    assert s[1] == Head(tag)[1] && s[2] == Head(tag)[2];
    assert |tag| == 2 ==> s[3] == Head(tag)[3];
    CapturedPrinted(digits, rest, Digit);
  }

  /** The matcher recognises a text as a tag whatever follows it. */
  ghost predicate Recognises(m: Matcher, text: string, tag: Match) {
    forall rest :: m(text + rest) == Some((tag, |text|))
  }

  lemma TagAtRecognises(item: Item)
    requires Printable(item)
    ensures Recognises(TagAt, PrintItem(item), TagOf(item))
  {
    forall rest ensures TagAt(PrintItem(item) + rest) == Some((TagOf(item), |PrintItem(item)|)) {
      match item {
        case Literal(bytes) => LiteralReadBack(Hex(bytes), rest);
        case Random(tag, length) => RandomReadBack(tag, Decimal(length), rest);
      }
    }
  }

  lemma TextReadBack(m: Matcher, text: string, tag: Match, rest: string)
    requires Advances(m) && Recognises(m, text, tag)
    ensures Parse(text + rest, m) == Prepend([tag], Parse(rest, m))
  {
    assert m(text + rest) == Some((tag, |text|));
    assert (text + rest)[|text|..] == rest;
  }

  /** A matcher that recognises every part of a text reads back exactly the tags that were printed. */
  lemma {:induction false} ReadBack(m: Matcher, texts: seq<string>, tags: seq<Match>)
    requires Advances(m) && |texts| == |tags| && forall i :: 0 <= i < |texts| ==> Recognises(m, texts[i], tags[i])
    ensures Parse(Concat(texts), m) == Some(tags)
  {
    if texts != [] {
      ReadBack(m, texts[1..], tags[1..]);
      TextReadBack(m, texts[0], tags[0], Concat(texts[1..]));
      assert tags == [tags[0]] + tags[1..];
    }
  }

  predicate AllPrintable(items: seq<Item>) {
    forall i :: 0 <= i < |items| ==> Printable(items[i])
  }

  function TagsOf(items: seq<Item>): seq<Match> {
    seq(|items|, i requires 0 <= i < |items| => TagOf(items[i]))
  }

  lemma ParsePrinted(items: seq<Item>)
    requires AllPrintable(items)
    ensures Proper(TagAt) && Parse(Print(items), TagAt) == Some(TagsOf(items))
  {
    TagAtIsProper();
    forall i | 0 <= i < |items| ensures Recognises(TagAt, Texts(items)[i], TagsOf(items)[i]) {
      TagAtRecognises(items[i]);
    }
    ReadBack(TagAt, Texts(items), TagsOf(items));
  }

  // ---------------------------------------------------------------- the encoder

  datatype Field = Field(offset: int, length: int, tag: string)

  predicate FieldFits(f: Field, position: int, size: nat) {
    position <= f.offset && 1 <= f.length && f.offset + f.length <= size && Tag(f.tag)
  }

  /** Spans in order from a position on, without overlap, inside the packet and with known tags. */
  predicate InOrder(size: nat, position: int, fields: seq<Field>)
    decreases |fields|
  {
    fields != [] ==>
      FieldFits(fields[0], position, size) && InOrder(size, fields[0].offset + fields[0].length, fields[1..])
  }

  predicate Encodable(packet: seq<Byte>, fields: seq<Field>) {
    0 < |packet| <= MAX_PACKET_SIZE && InOrder(|packet|, 0, fields)
  }

  /** Literals of at most 480 bytes each. */
  function Chunks(raw: seq<Byte>): seq<Item> {
    if raw == [] then [] else [Literal(raw[..Min(|raw|, CHUNK)])] + Chunks(raw[Min(|raw|, CHUNK)..])
  }

  /** Every literal but the last is full. */
  lemma {:induction false} ChunksAreFull(raw: seq<Byte>)
    ensures forall i :: 0 <= i < |Chunks(raw)| ==>
              Chunks(raw)[i].Literal? && if i < |Chunks(raw)| - 1 then |Chunks(raw)[i].bytes| == 480 else 1 <= |Chunks(raw)[i].bytes| <= 480
  {
    if raw != [] {
      ChunksAreFull(raw[Min(|raw|, CHUNK)..]);
    }
  }

  /** The items of a packet from a position on: literals, with a random span for every field. */
  function Layout(packet: seq<Byte>, position: nat, fields: seq<Field>): seq<Item>
    requires position <= |packet| && InOrder(|packet|, position, fields)
    decreases |fields|
  {
    if fields == [] then Chunks(packet[position..])
    else
      var f := fields[0];
      Chunks(packet[position..f.offset]) + [Random(f.tag, f.length)] + Layout(packet, f.offset + f.length, fields[1..])
  }

  lemma FirstChunk(raw: seq<Byte>, n: nat)
    requires raw != [] && n == Min(|raw|, CHUNK)
    ensures Texts(Chunks(raw)) == [PrintItem(Literal(raw[..n]))] + Texts(Chunks(raw[n..]))
  {
    FirstText(Literal(raw[..n]), Chunks(raw[n..]));
  }

  lemma FirstText(item: Item, rest: seq<Item>)
    ensures Texts([item] + rest) == [PrintItem(item)] + Texts(rest)
  {
  }

  lemma MovedOver<T>(a: seq<T>, x: T, b: seq<T>)
    ensures a + ([x] + b) == (a + [x]) + b
  {
  }

  /** The parts that the encoder writes for a stretch of fixed bytes. */
  method Static(parts: seq<string>, raw: seq<Byte>) returns (out: seq<string>)
    ensures out == parts + Texts(Chunks(raw))
  {
    out := parts;
    var left := raw;
    while left != []
      invariant out + Texts(Chunks(left)) == parts + Texts(Chunks(raw))
      decreases |left|
    {
      var n := Min(|left|, CHUNK);
      FirstChunk(left, n);
      MovedOver(out, PrintItem(Literal(left[..n])), Texts(Chunks(left[n..])));
      out, left := out + [PrintItem(Literal(left[..n]))], left[n..];
    }
  }

  datatype Signature = Signature(text: string, size: nat, dynamic: bool)

  /** `encode` prints the layout of exactly the encodable inputs. */
  method Encode(packet: seq<Byte>, fields: seq<Field>) returns (r: Result<Signature>)
    ensures r.Ok? <==> 1 <= |packet| <= 1232 && InOrder(|packet|, 0, fields)
    ensures r.Ok? ==> r.value == Signature(Print(Layout(packet, 0, fields)), |packet|, fields != [])
  {
    if |packet| == 0 || |packet| > MAX_PACKET_SIZE {
      return Err;
    }
    var parts: seq<string>, position: nat := [], 0;
    assert fields[0..] == fields;
    for i := 0 to |fields|
      invariant Progress(packet, fields, parts, position, fields[i..])
    {
      var f := fields[i];
      if f.offset < position || f.length < 1 || f.offset + f.length > |packet| || !Tag(f.tag) {
        return Err;
      }
      parts := AddField(parts, packet, position, f, fields, fields[i..]);
      position := f.offset + f.length;
      assert fields[i..][1..] == fields[i + 1..];
    }
    parts := Static(parts, packet[position..]);
    return Ok(Signature(Concat(parts), |packet|, fields != []));
  }

  /** What has been written, and that the rest of the fields decides about the rest. */
  ghost predicate Progress(packet: seq<Byte>, fields: seq<Field>, parts: seq<string>, position: nat, rest: seq<Field>) {
    && position <= |packet|
    && (InOrder(|packet|, 0, fields) <==> InOrder(|packet|, position, rest))
    && (InOrder(|packet|, 0, fields) ==> parts + Texts(Layout(packet, position, rest)) == Texts(Layout(packet, 0, fields)))
  }

  /** A literal up to the field, and the field. */
  method AddField(parts: seq<string>, packet: seq<Byte>, position: nat, f: Field, ghost fields: seq<Field>, ghost rest: seq<Field>) returns (out: seq<string>)
    requires Progress(packet, fields, parts, position, rest) && rest != [] && rest[0] == f && FieldFits(f, position, |packet|)
    ensures Progress(packet, fields, out, f.offset + f.length, rest[1..])
  {
    out := Static(parts, packet[position..f.offset]);
    out := out + [PrintItem(Random(f.tag, f.length))];
    FieldAdded(parts, out, packet, position, f, fields, rest);
  }

  lemma FieldAdded(parts: seq<string>, out: seq<string>, packet: seq<Byte>, position: nat, f: Field, fields: seq<Field>, rest: seq<Field>)
    requires Progress(packet, fields, parts, position, rest) && rest != [] && rest[0] == f && FieldFits(f, position, |packet|)
    requires out == parts + Texts(Chunks(packet[position..f.offset])) + [PrintItem(Random(f.tag, f.length))]
    ensures Progress(packet, fields, out, f.offset + f.length, rest[1..])
  {
    if InOrder(|packet|, position, rest) {
      var gap, item, after := Chunks(packet[position..f.offset]), Random(f.tag, f.length), Layout(packet, f.offset + f.length, rest[1..]);
      assert Layout(packet, position, rest) == gap + [item] + after;
      ThreeTexts(gap, item, after);
      FourParts(parts, Texts(gap), [PrintItem(item)], Texts(after));
    }
  }

  lemma FourParts<T>(a: seq<T>, b: seq<T>, c: seq<T>, d: seq<T>)
    ensures a + (b + c + d) == a + b + c + d
  {
  }

  lemma ThreeTexts(gap: seq<Item>, item: Item, rest: seq<Item>)
    ensures Texts(gap + [item] + rest) == Texts(gap) + [PrintItem(item)] + Texts(rest)
  {
  }

  // ---------------------------------------------------------------- encoding, then validating

  /** What a text fixes of a packet: a byte, or nothing where a tag varies it. */
  type Mask = seq<Option<Byte>>

  function Fixed(bytes: seq<Byte>): Mask {
    seq(|bytes|, i requires 0 <= i < |bytes| => Some(bytes[i]))
  }

  function Free(n: nat): Mask {
    seq(n, i => None)
  }

  function MaskOf(tag: Match): Mask
    requires tag.WellFormed() && tag.Valid()
  {
    match tag
    case HexTag(digits) => Fixed(Unhex(digits))
    case RandomTag(_, digits) => Free(Number(digits))
    case ClockTag => Free(4)
  }

  /** The mask that a list of valid tags stands for. */
  function Decoded(tags: seq<Match>): Mask
    requires AllWellFormed(tags) && AllValid(tags)
  {
    Concat(seq(|tags|, i requires 0 <= i < |tags| => MaskOf(tags[i])))
  }

  function ItemMask(item: Item): Mask {
    match item
    case Literal(bytes) => Fixed(bytes)
    case Random(_, length) => Free(length)
  }

  function Masks(items: seq<Item>): seq<Mask> {
    seq(|items|, i requires 0 <= i < |items| => ItemMask(items[i]))
  }

  lemma TagOfIsValid(item: Item)
    requires Printable(item)
    ensures TagOf(item).WellFormed() && TagOf(item).Valid() && MaskOf(TagOf(item)) == ItemMask(item) && TagOf(item).Size() == |ItemMask(item)|
  {
    match item
    case Literal(bytes) => HexRoundTrip(bytes);
    case Random(_, length) => DecimalRoundTrip(length);
  }

  lemma DecodedTags(items: seq<Item>)
    requires AllPrintable(items)
    ensures AllWellFormed(TagsOf(items)) && AllValid(TagsOf(items)) && Decoded(TagsOf(items)) == Concat(Masks(items))
  {
    var tags := TagsOf(items);
    forall i | 0 <= i < |items| ensures tags[i].WellFormed() && tags[i].Valid() && MaskOf(tags[i]) == Masks(items)[i] {
      TagOfIsValid(items[i]);
    }
    assert seq(|tags|, i requires 0 <= i < |tags| => MaskOf(tags[i])) == Masks(items);
  }

  lemma SizeOfMask(tag: Match)
    requires tag.WellFormed() && tag.Valid()
    ensures |MaskOf(tag)| == tag.Size()
  {
  }

  /** The accumulated size is the length of what the tags stand for. */
  lemma {:induction false} SizeIsLength(tags: seq<Match>)
    requires AllWellFormed(tags) && AllValid(tags)
    ensures TotalSize(tags) == |Decoded(tags)|
  {
    if tags != [] {
      SizeIsLength(tags[1..]);
      SizeFromFront(tags);
      SizeOfMask(tags[0]);
      var masks := seq(|tags|, i requires 0 <= i < |tags| => MaskOf(tags[i]));
      assert masks[1..] == seq(|tags| - 1, i requires 0 <= i < |tags| - 1 => MaskOf(tags[1..][i]));
    }
  }

  lemma {:induction false} SizeFromFront(tags: seq<Match>)
    requires AllWellFormed(tags) && tags != []
    ensures TotalSize(tags) == tags[0].Size() + TotalSize(tags[1..])
  {
    var init, last := tags[..|tags| - 1], tags[|tags| - 1];
    if |tags| > 1 {
      SizeFromFront(init);
      assert tags[1..][..|tags| - 2] == init[1..];
    } else {
      assert TotalSize(init) == 0 && TotalSize(tags[1..]) == 0;
    }
  }

  lemma MaskJoins(a: seq<Item>, b: seq<Item>)
    ensures Concat(Masks(a + b)) == Concat(Masks(a)) + Concat(Masks(b))
  {
    ConcatJoins(Masks(a), Masks(b));
    assert Masks(a + b) == Masks(a) + Masks(b);
  }

  lemma {:induction false} ChunksMask(raw: seq<Byte>)
    ensures AllPrintable(Chunks(raw)) && Concat(Masks(Chunks(raw))) == Fixed(raw)
  {
    if raw != [] {
      var n := Min(|raw|, CHUNK);
      ChunksMask(raw[n..]);
      MaskJoins([Literal(raw[..n])], Chunks(raw[n..]));
      assert Masks([Literal(raw[..n])]) == [Fixed(raw[..n])];
      assert Fixed(raw) == Fixed(raw[..n]) + Fixed(raw[n..]);
    }
  }

  /** Position i of the packet lies in one of the spans. */
  predicate Dynamic(fields: seq<Field>, i: int) {
    exists k :: 0 <= k < |fields| && fields[k].offset <= i < fields[k].offset + fields[k].length
  }

  /** The packet from a position on, with the spans left open. */
  function Masked(packet: seq<Byte>, position: nat, fields: seq<Field>): Mask
    requires position <= |packet|
  {
    seq(|packet| - position, i requires 0 <= i < |packet| - position =>
      if Dynamic(fields, position + i) then None else Some(packet[position + i]))
  }

  lemma {:induction false} FieldsFollow(size: nat, position: int, fields: seq<Field>, k: nat)
    requires InOrder(size, position, fields) && k < |fields|
    ensures position <= fields[k].offset && 1 <= fields[k].length
    decreases |fields|
  {
    if k > 0 {
      FieldsFollow(size, fields[0].offset + fields[0].length, fields[1..], k - 1);
    }
  }

  /** The mask of the first field and the literal before it. */
  lemma FirstSpan(packet: seq<Byte>, position: nat, fields: seq<Field>)
    requires position <= |packet| && InOrder(|packet|, position, fields) && fields != []
    ensures var f := fields[0];
            Masked(packet, position, fields) ==
            Fixed(packet[position..f.offset]) + Free(f.length) + Masked(packet, f.offset + f.length, fields[1..])
  {
    var f := fields[0];
    var end := f.offset + f.length;
    forall i | position <= i < f.offset ensures !Dynamic(fields, i) {
      forall k | 0 <= k < |fields| ensures fields[k].offset > i {
        if k > 0 { FieldsFollow(|packet|, end, fields[1..], k - 1); }
      }
    }
    forall i | f.offset <= i < end ensures Dynamic(fields, i) {
      assert fields[0].offset <= i < fields[0].offset + fields[0].length;
    }
    forall i | end <= i < |packet| ensures Dynamic(fields, i) <==> Dynamic(fields[1..], i) {
      SameAfter(fields, i);
    }
  }

  lemma SameAfter(fields: seq<Field>, i: int)
    requires fields != [] && fields[0].offset + fields[0].length <= i
    ensures Dynamic(fields, i) <==> Dynamic(fields[1..], i)
  {
    if Dynamic(fields, i) {
      var k :| 0 <= k < |fields| && fields[k].offset <= i < fields[k].offset + fields[k].length;
      assert fields[1..][k - 1] == fields[k];
    }
    if Dynamic(fields[1..], i) {
      var k :| 0 <= k < |fields[1..]| && fields[1..][k].offset <= i < fields[1..][k].offset + fields[1..][k].length;
      assert fields[k + 1] == fields[1..][k];
    }
  }

  lemma ThreeMasks(gap: seq<Item>, item: Item, rest: seq<Item>)
    ensures Concat(Masks(gap + [item] + rest)) == Concat(Masks(gap)) + ItemMask(item) + Concat(Masks(rest))
  {
    MaskJoins(gap + [item], rest);
    MaskJoins(gap, [item]);
    assert Masks([item]) == [ItemMask(item)];
  }

  /** The items of a packet are printable and stand for the packet with its spans left open. */
  lemma {:induction false} LayoutMask(packet: seq<Byte>, position: nat, fields: seq<Field>)
    requires position <= |packet| <= MAX_PACKET_SIZE && InOrder(|packet|, position, fields)
    ensures AllPrintable(Layout(packet, position, fields))
    ensures Concat(Masks(Layout(packet, position, fields))) == Masked(packet, position, fields)
    decreases |fields|
  {
    if fields == [] {
      ChunksMask(packet[position..]);
      forall i ensures !Dynamic(fields, i) {
      }
      assert Fixed(packet[position..]) == Masked(packet, position, fields);
    } else {
      var f := fields[0];
      LayoutMask(packet, f.offset + f.length, fields[1..]);
      LayoutMaskStep(packet, position, fields);
    }
  }

  lemma LayoutMaskStep(packet: seq<Byte>, position: nat, fields: seq<Field>)
    requires position <= |packet| <= MAX_PACKET_SIZE && InOrder(|packet|, position, fields) && fields != []
    requires var rest := Layout(packet, fields[0].offset + fields[0].length, fields[1..]);
             AllPrintable(rest) && Concat(Masks(rest)) == Masked(packet, fields[0].offset + fields[0].length, fields[1..])
    ensures AllPrintable(Layout(packet, position, fields))
    ensures Concat(Masks(Layout(packet, position, fields))) == Masked(packet, position, fields)
  {
    var f := fields[0];
    var gap, item, rest := Chunks(packet[position..f.offset]), Random(f.tag, f.length), Layout(packet, f.offset + f.length, fields[1..]);
    ChunksMask(packet[position..f.offset]);
    assert Layout(packet, position, fields) == gap + [item] + rest;
    ThreePrintable(gap, item, rest);
    ThreeMasks(gap, item, rest);
    FirstSpan(packet, position, fields);
  }

  lemma ThreePrintable(gap: seq<Item>, item: Item, rest: seq<Item>)
    requires AllPrintable(gap) && Printable(item) && AllPrintable(rest)
    ensures AllPrintable(gap + [item] + rest)
  {
  }

  /** Printed text has no control characters and stays short. */
  predicate Tame(text: string, mask: Mask) {
    |text| <= 8 * |mask| && forall i :: 0 <= i < |text| ==> text[i] >= ' '
  }

  lemma TameBrackets(head: string, digits: string, mask: Mask)
    requires |head| + |digits| + 1 <= 8 * |mask|
    requires (forall i :: 0 <= i < |head| ==> head[i] >= ' ') && (forall i :: 0 <= i < |digits| ==> HexDigit(digits[i]))
    ensures Tame(Bracketed(head, digits), mask)
  {
  }

  lemma TameItem(item: Item)
    requires Printable(item)
    ensures Tame(PrintItem(item), ItemMask(item))
  {
    match item
    case Literal(bytes) => TameBrackets("<b 0x", Hex(bytes), ItemMask(item));
    case Random(tag, length) =>
      DecimalRoundTrip(length);
      assert |Head(tag)| <= 4 && Head(tag)[1] == tag[0];
      TameBrackets(Head(tag), Decimal(length), ItemMask(item));
  }

  lemma {:induction false} TameText(texts: seq<string>, masks: seq<Mask>)
    requires |texts| == |masks| && forall i :: 0 <= i < |texts| ==> Tame(texts[i], masks[i])
    ensures Tame(Concat(texts), Concat(masks))
  {
    if texts != [] {
      TameText(texts[1..], masks[1..]);
      assert Tame(texts[0], masks[0]);
    }
  }

  lemma PrintedIsTame(items: seq<Item>)
    requires AllPrintable(items)
    ensures Tame(Print(items), Concat(Masks(items)))
  {
    forall i | 0 <= i < |items| ensures Tame(Texts(items)[i], Masks(items)[i]) {
      TameItem(items[i]);
    }
    TameText(Texts(items), Masks(items));
  }

  /**
   * Whatever `encode` prints, `ValidateCPS` accepts, the size it adds up is the packet's, and the tags
   * stand for the packet itself, with exactly the dynamic spans left open.
   */
  lemma EncodedIsAccepted(packet: seq<Byte>, fields: seq<Field>)
    requires Encodable(packet, fields)
    ensures Proper(TagAt)
    ensures var text := Print(Layout(packet, 0, fields));
            && Accepts(text, TagAt) && text != ""
            && AllValid(Parse(text, TagAt).value) && TotalSize(Parse(text, TagAt).value) == |packet|
            && Decoded(Parse(text, TagAt).value) == Masked(packet, 0, fields)
  {
    LayoutMask(packet, 0, fields);
    assert |Masked(packet, 0, fields)| == |packet|;
    PrintedIsAccepted(Layout(packet, 0, fields));
  }

  lemma PrintedIsAccepted(items: seq<Item>)
    requires AllPrintable(items) && 0 < |Concat(Masks(items))| <= MAX_PACKET_SIZE
    ensures Proper(TagAt) && Print(items) != "" && Accepts(Print(items), TagAt)
    ensures Parse(Print(items), TagAt) == Some(TagsOf(items)) && AllWellFormed(TagsOf(items)) && AllValid(TagsOf(items))
    ensures TotalSize(TagsOf(items)) == |Concat(Masks(items))| && Decoded(TagsOf(items)) == Concat(Masks(items))
  {
    ParsePrinted(items);
    DecodedTags(items);
    SizeIsLength(TagsOf(items));
    PrintedIsTame(items);
    TameIsAccepted(Print(items), TagsOf(items), TagAt);
  }

  lemma TameIsAccepted(text: string, tags: seq<Match>, m: Matcher)
    requires Advances(m) && Parse(text, m) == Some(tags) && AllWellFormed(tags) && AllValid(tags) && 0 < TotalSize(tags) <= MAX_PACKET_SIZE
    requires |text| <= 8 * TotalSize(tags) && forall i :: 0 <= i < |text| ==> text[i] >= ' '
    ensures text != "" && Accepts(text, m)
  {
  }

  /** Encoding and validating in sequence. */
  method RoundTrip(packet: seq<Byte>, fields: seq<Field>) returns (ok: bool, size: nat)
    ensures ok <==> Encodable(packet, fields)
    ensures size == if ok then |packet| else 0
  {
    var encoded := Encode(packet, fields);
    if encoded.Err? {
      return false, 0;
    }
    EncodedIsAccepted(packet, fields);
    ok, size := ValidateCPS(encoded.value.text);
  }
}
