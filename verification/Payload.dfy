/** The canonical payload signed by announce and withdraw requests (announce_auth.rs). */
module Payload {
  import opened Common
  import Decimal
  import opened Text

  datatype Request = Request(
    verb: string, nodeId: string, timestampMs: int, ticket: string, audience: string, itemIds: seq<string>)

  // ----- Canonical audience -----

  /** `trim_end_matches`: every copy of a non-empty suffix is dropped. */
  function DropSuffix(s: string, suffix: string): string
    requires suffix != ""
  {
    if |suffix| <= |s| && s[|s| - |suffix|..] == suffix then DropSuffix(s[..|s| - |suffix|], suffix) else s
  }

  /** Position of the first `://`, or the length when there is none. */
  function SchemeEnd(s: string): (i: nat)
    ensures i <= |s| && (i < |s| ==> i + 3 <= |s| && s[i..i + 3] == "://")
  {
    if s == "" then 0
    else if |s| >= 3 && s[..3] == "://" then 0
    else
      var k := SchemeEnd(s[1..]);
      assert k < |s| - 1 ==> s[1..][k..k + 3] == s[1 + k..1 + k + 3];
      1 + k
  }

  function Trimmed(url: string): string { DropSuffix(TrimEnd(TrimStart(url)), "/") }

  function WithoutDefaultPort(scheme: string, host: string): string {
    if scheme == "https" then DropSuffix(host, ":443")
    else if scheme == "http" then DropSuffix(host, ":80")
    else host
  }

  function CanonicalAudience(url: string): string {
    var s := Trimmed(url);
    var at := SchemeEnd(s);
    if at == |s| then Lower(s)
    else
      var scheme, rest := Lower(s[..at]), s[at + 3..];
      var slash := IndexOf(rest, '/');
      scheme + "://" + WithoutDefaultPort(scheme, Lower(rest[..slash])) + rest[slash..]
  }

  /** No step of the canonicalisation makes a newline. */
  lemma AudienceStaysOneLine(url: string)
    requires !Has(url, '\n')
    ensures !Has(CanonicalAudience(url), '\n')
  {
    var s := Trimmed(url);
    TrimStartPart(url);
    TrimEndPart(TrimStart(url));
    DropSuffixPart(TrimEnd(TrimStart(url)), "/");
    var at := SchemeEnd(s);
    LowerPart(s);
    if at < |s| {
      var scheme, rest := Lower(s[..at]), s[at + 3..];
      var slash := IndexOf(rest, '/');
      assert !Has(s[..at], '\n') && !Has(rest, '\n') && !Has(rest[..slash], '\n') && !Has(rest[slash..], '\n');
      LowerPart(s[..at]);
      LowerPart(rest[..slash]);
      var host := WithoutDefaultPort(scheme, Lower(rest[..slash]));
      PortPart(scheme, Lower(rest[..slash]));
      ConcatPart(scheme, "://");
      ConcatPart(scheme + "://", host);
      ConcatPart(scheme + "://" + host, rest[slash..]);
    }
  }

  lemma ConcatPart(a: string, b: string)
    requires !Has(a, '\n') && !Has(b, '\n')
    ensures !Has(a + b, '\n')
  {
  }

  lemma LowerPart(s: string)
    requires !Has(s, '\n')
    ensures !Has(Lower(s), '\n')
  {
    forall i | 0 <= i < |s| ensures Lower(s)[i] != '\n' {
      assert s[i] != '\n';
    }
  }

  lemma PortPart(scheme: string, host: string)
    requires !Has(host, '\n')
    ensures !Has(WithoutDefaultPort(scheme, host), '\n')
  {
    DropSuffixPart(host, ":443");
    DropSuffixPart(host, ":80");
  }

  lemma TrimStartPart(s: string)
    requires !Has(s, '\n')
    ensures !Has(TrimStart(s), '\n')
  {
  }

  lemma TrimEndPart(s: string)
    requires !Has(s, '\n')
    ensures !Has(TrimEnd(s), '\n')
  {
  }

  lemma DropSuffixPart(s: string, suffix: string)
    requires suffix != "" && !Has(s, '\n')
    ensures !Has(DropSuffix(s, suffix), '\n')
  {
  }

  // ----- What the canonical audience is -----

  predicate AllSlash(s: string) { forall i :: 0 <= i < |s| ==> s[i] == '/' }

  lemma {:induction false} SlashesDrop(s: string, z: string)
    requires AllSlash(z) && s != "" && s[|s| - 1] != '/'
    ensures DropSuffix(s + z, "/") == s
  {
    if z == "" {
      assert s + z == s;
      assert s[|s| - 1..][0] == s[|s| - 1];
    } else {
      SlashesDrop(s, z[..|z| - 1]);
      assert (s + z)[..|s + z| - 1] == s + z[..|z| - 1];
      assert (s + z)[|s + z| - 1..] == "/";
    }
  }

  /** White space around an address, and slashes behind it, do not matter. */
  lemma TrimmedIs(l: string, s: string, z: string, r: string)
    requires AllSpace(l) && AllSlash(z) && AllSpace(r) && s != ""
    requires !IsSpace(s[0]) && !IsSpace(s[|s| - 1]) && s[|s| - 1] != '/'
    ensures Trimmed(l + (s + z) + r) == s
  {
    Regroup(l, s + z, r);
    TrimStartSkips(l, s + z + r);
    assert z != "" ==> (s + z)[|s + z| - 1] == '/';
    TrimEndSkips(s + z, r);
    SlashesDrop(s, z);
  }

  lemma {:induction false} SchemeEndIs(scheme: string, rest: string)
    requires !Has(scheme, ':')
    ensures SchemeEnd(scheme + "://" + rest) == |scheme|
  {
    var s := scheme + "://" + rest;
    if scheme == "" {
      assert s[..3] == "://";
    } else {
      assert s[0] == scheme[0] != ':';
      assert s[..3][0] != "://"[0];
      SchemeEndIs(scheme[1..], rest);
      assert s[1..] == scheme[1..] + "://" + rest;
    }
  }

  lemma IndexIs(a: string, p: string)
    requires !Has(a, '/') && (p != "" ==> p[0] == '/')
    ensures IndexOf(a + p, '/') == |a|
  {
    assert forall j :: 0 <= j < |a| ==> (a + p)[j] == a[j];
    assert p != "" ==> (a + p)[|a|] == '/';
  }

  /** The parts of an address: scheme, authority, and a path that is empty or starts with a slash. */
  predicate IsAddress(scheme: string, authority: string, path: string) {
    !Has(scheme, ':') && !Has(authority, '/') && authority != ""
    && (scheme != "" ==> !IsSpace(scheme[0]))
    && (path != "" ==> path[0] == '/')
    && var last := (authority + path)[|authority + path| - 1];
       !IsSpace(last) && last != '/'
  }

  predicate EndsWith(s: string, suffix: string) { |suffix| <= |s| && s[|s| - |suffix|..] == suffix }

  /**
   An address is canonicalised to its lower-case scheme, its lower-case authority without copies
   of the scheme's default port, and its path as it is, whatever white space is around it and
   however many slashes follow.
   */
  lemma AudienceIs(l: string, scheme: string, authority: string, path: string, z: string, r: string)
    requires AllSpace(l) && AllSlash(z) && AllSpace(r) && IsAddress(scheme, authority, path)
    ensures CanonicalAudience(l + (scheme + "://" + (authority + path) + z) + r)
      == Lower(scheme) + "://" + WithoutDefaultPort(Lower(scheme), Lower(authority)) + path
  {
    var s := scheme + "://" + (authority + path);
    AddressEnds(scheme, authority, path);
    TrimmedIs(l, s, z, r);
    AddressParts(scheme, authority, path);
  }

  lemma AddressEnds(scheme: string, authority: string, path: string)
    requires IsAddress(scheme, authority, path)
    ensures var s := scheme + "://" + (authority + path);
      !IsSpace(s[0]) && !IsSpace(s[|s| - 1]) && s[|s| - 1] != '/'
  {
    var rest := authority + path;
    var s := scheme + "://" + rest;
    assert s[|s| - 1] == rest[|rest| - 1];
    assert s[0] == if scheme == "" then ':' else scheme[0];
  }

  lemma AddressParts(scheme: string, authority: string, path: string)
    requires IsAddress(scheme, authority, path)
    ensures var rest := authority + path; var s := scheme + "://" + rest;
      SchemeEnd(s) == |scheme| && s[..|scheme|] == scheme && s[|scheme| + 3..] == rest
      && IndexOf(rest, '/') == |authority| && rest[..|authority|] == authority && rest[|authority|..] == path
  {
    SchemeEndIs(scheme, authority + path);
    IndexIs(authority, path);
  }

  /** The default port of the scheme vanishes, and any other end of the authority stays. */
  lemma DefaultPortVanishes(scheme: string, host: string)
    ensures WithoutDefaultPort("https", host + ":443") == WithoutDefaultPort("https", host)
    ensures WithoutDefaultPort("http", host + ":80") == WithoutDefaultPort("http", host)
    ensures !EndsWith(host, ":443") ==> WithoutDefaultPort("https", host) == host
    ensures !EndsWith(host, ":80") ==> WithoutDefaultPort("http", host) == host
    ensures scheme != "https" && scheme != "http" ==> WithoutDefaultPort(scheme, host) == host
  {
    assert (host + ":443")[|host|..] == ":443" && (host + ":443")[..|host|] == host;
    assert (host + ":80")[|host|..] == ":80" && (host + ":80")[..|host|] == host;
  }

  predicate SchemeAt(s: string, i: nat) { i + 3 <= |s| && s[i..i + 3] == "://" }

  /** A text without `://` is a host name: it is put in lower case. */
  lemma NoSchemeIs(l: string, s: string, z: string, r: string)
    requires AllSpace(l) && AllSlash(z) && AllSpace(r) && s != ""
    requires !IsSpace(s[0]) && !IsSpace(s[|s| - 1]) && s[|s| - 1] != '/'
    requires forall i :: 0 <= i < |s| ==> !SchemeAt(s, i)
    ensures CanonicalAudience(l + (s + z) + r) == Lower(s)
  {
    TrimmedIs(l, s, z, r);
    assert SchemeEnd(s) < |s| ==> SchemeAt(s, SchemeEnd(s));
  }

  // ----- Ids -----

  /** Exactly 64 lowercase hexadecimal digits. */
  predicate IsCanonicalId(id: string) {
    |id| == 64 && forall i :: 0 <= i < 64 ==> '0' <= id[i] <= '9' || 'a' <= id[i] <= 'f'
  }

  function NonEmpty(ids: seq<string>): seq<string> {
    if ids == [] then []
    else NonEmpty(ids[..|ids| - 1]) + if ids[|ids| - 1] != "" then [ids[|ids| - 1]] else []
  }

  predicate AllCanonical(ids: seq<string>) { forall i :: 0 <= i < |ids| ==> IsCanonicalId(ids[i]) }

  /** Lexicographic order of strings. */
  predicate AtMost(a: string, b: string) {
    a == "" || (b != "" && (a[0] < b[0] || (a[0] == b[0] && AtMost(a[1..], b[1..]))))
  }

  lemma {:induction false} OrderTotal(a: string, b: string)
    ensures AtMost(a, b) || AtMost(b, a)
  {
    if a != "" && b != "" && a[0] == b[0] {
      OrderTotal(a[1..], b[1..]);
    }
  }

  lemma {:induction false} OrderStrict(a: string, b: string)
    requires AtMost(a, b) && AtMost(b, a)
    ensures a == b
  {
    if a != "" {
      OrderStrict(a[1..], b[1..]);
      assert a == [a[0]] + a[1..] && b == [b[0]] + b[1..];
    }
  }

  lemma {:induction false} OrderChains(a: string, b: string, c: string)
    requires AtMost(a, b) && AtMost(b, c)
    ensures AtMost(a, c)
  {
    if a != "" && a[0] == b[0] == c[0] {
      OrderChains(a[1..], b[1..], c[1..]);
    }
  }

  /** The order is that of the first difference. */
  lemma {:induction false} FirstDifferenceDecides(common: string, a: string, b: string)
    requires a == "" || b == "" || a[0] != b[0]
    ensures AtMost(common + a, common + b) <==> a == "" || (b != "" && a[0] < b[0])
  {
    if common == "" {
      assert common + a == a && common + b == b;
    } else {
      FirstDifferenceDecides(common[1..], a, b);
      assert (common + a)[1..] == common[1..] + a && (common + b)[1..] == common[1..] + b;
    }
  }

  predicate Ascending(ids: seq<string>) {
    forall i, j :: 0 <= i < j < |ids| ==> AtMost(ids[i], ids[j])
  }

  /** An ascending list is determined by its multiset. */
  lemma {:induction false} AscendingUnique(a: seq<string>, b: seq<string>)
    requires Ascending(a) && Ascending(b) && multiset(a) == multiset(b)
    ensures a == b
  {
    if a == [] {
      assert |multiset(b)| == 0;
    } else {
      assert |multiset(a)| == |multiset(b)|;
      SameFirst(a, b);
      WithoutFirst(a);
      WithoutFirst(b);
      AscendingUnique(a[1..], b[1..]);
      assert a == [a[0]] + a[1..] && b == [b[0]] + b[1..];
    }
  }

  lemma WithoutFirst(a: seq<string>)
    requires a != []
    ensures multiset(a[1..]) == multiset(a) - multiset{a[0]}
  {
    assert a == [a[0]] + a[1..];
  }

  lemma SameFirst(a: seq<string>, b: seq<string>)
    requires a != [] && b != [] && Ascending(a) && Ascending(b) && multiset(a) == multiset(b)
    ensures a[0] == b[0]
  {
    assert a[0] in multiset(b) && b[0] in multiset(a);
    FirstIsLeast(b, a[0]);
    FirstIsLeast(a, b[0]);
    OrderStrict(a[0], b[0]);
  }

  lemma FirstIsLeast(a: seq<string>, x: string)
    requires Ascending(a) && x in a
    ensures AtMost(a[0], x)
  {
    var i :| 0 <= i < |a| && a[i] == x;
    if i == 0 {
      OrderTotal(x, x);
    }
  }

  /** The sorted ids: what `sort_unstable` leaves, up to the order of equal strings. */
  function Sorted(ids: seq<string>): (r: seq<string>)
    ensures Ascending(r) && multiset(r) == multiset(ids)
  {
    if ids == [] then []
    else
      assert ids == ids[..|ids| - 1] + [ids[|ids| - 1]];
      Insert(Sorted(ids[..|ids| - 1]), ids[|ids| - 1])
  }

  function Insert(ids: seq<string>, x: string): (r: seq<string>)
    requires Ascending(ids)
    ensures Ascending(r) && multiset(r) == multiset(ids) + multiset{x}
  {
    if ids == [] then [x]
    else
      assert ids == [ids[0]] + ids[1..];
      if AtMost(x, ids[0]) then FrontFits(ids, x); [x] + ids
      else
        var r := Insert(ids[1..], x);
        RestFits(ids, x, r);
        [ids[0]] + r
  }

  lemma FrontFits(ids: seq<string>, x: string)
    requires Ascending(ids) && ids != [] && AtMost(x, ids[0])
    ensures Ascending([x] + ids)
  {
    forall j | 0 <= j < |ids| ensures AtMost(x, ids[j]) {
      if j > 0 {
        OrderChains(x, ids[0], ids[j]);
      }
    }
  }

  lemma RestFits(ids: seq<string>, x: string, r: seq<string>)
    requires Ascending(ids) && ids != [] && !AtMost(x, ids[0])
    requires Ascending(r) && multiset(r) == multiset(ids[1..]) + multiset{x}
    ensures Ascending([ids[0]] + r)
  {
    forall j | 0 <= j < |r| ensures AtMost(ids[0], r[j]) {
      assert r[j] in multiset(r);
      if r[j] == x {
        OrderTotal(x, ids[0]);
      } else {
        assert r[j] in ids[1..];
      }
    }
  }

  // ----- Lines -----

  predicate OneLineEach(lines: seq<string>) { forall i :: 0 <= i < |lines| ==> !Has(lines[i], '\n') }

  /** Splitting at newlines undoes joining. */
  lemma {:induction false} JoinSplits(lines: seq<string>)
    requires lines != [] && OneLineEach(lines)
    ensures Terminated(Join(lines)) + [Tail(Join(lines))] == lines
  {
    var last := lines[|lines| - 1];
    if |lines| == 1 {
      NoNewline(last);
    } else {
      var init := lines[..|lines| - 1];
      JoinSplits(init);
      assert lines == init + [last];
      JoinSnoc(init, last);
      SplitLast(Join(init), last);
    }
  }

  lemma SplitLast(text: string, last: string)
    requires !Has(last, '\n')
    ensures Terminated(text + "\n" + last) == Terminated(text) + [Tail(text)] && Tail(text + "\n" + last) == last
  {
    NewlineEndsLine(text);
    AppendToTail(text + "\n", last);
  }

  lemma JoinInjective(a: seq<string>, b: seq<string>)
    requires a != [] && b != [] && OneLineEach(a) && OneLineEach(b)
    ensures Join(a) == Join(b) <==> a == b
  {
    JoinSplits(a);
    JoinSplits(b);
  }

  /** `i64::to_string`. */
  function PrintInt(n: int): string { if n < 0 then "-" + Decimal.Print(-n) else Decimal.Print(n) }

  lemma PrintIntInjective(a: int, b: int)
    ensures !Has(PrintInt(a), '\n')
    ensures PrintInt(a) == PrintInt(b) <==> a == b
  {
    var pa, pb := PrintInt(a), PrintInt(b);
    assert forall s: string :: Decimal.AllDigits(s) ==> !Has(s, '\n') && (s != "" ==> s[0] != '-');
    if pa == pb {
      if a < 0 {
        assert pa[1..] == Decimal.Print(-a) && pb[0] == '-';
        assert pb[1..] == Decimal.Print(-b);
      }
    }
  }

  // ----- The payload -----

  /** The lines of a payload. */
  function PayloadLines(q: Request): (r: seq<string>)
    ensures r != []
  {
    [q.verb, q.nodeId, PrintInt(q.timestampMs), CanonicalAudience(q.audience), q.ticket] + Sorted(NonEmpty(q.itemIds))
  }

  function PayloadOf(q: Request): Option<string> {
    if AllCanonical(NonEmpty(q.itemIds)) then Some(Join(PayloadLines(q))) else None
  }

  /** `canonical_payload`: filter, refuse, sort, then append field by field. */
  method CanonicalPayload(q: Request) returns (r: Option<string>)
    ensures r == PayloadOf(q)
  {
    var ids := CollectIds(q.itemIds);
    if !AllCanonical(ids) {
      return None;
    }
    var lines := PayloadLines(q);
    var s := q.verb + "\n" + q.nodeId + "\n" + PrintInt(q.timestampMs) + "\n" + CanonicalAudience(q.audience)
             + "\n" + q.ticket;
    JoinFive(lines);
    assert lines[5..] == Sorted(ids);
    s := AppendIds(s, lines, Sorted(ids));
    return Some(s);
  }

  method CollectIds(items: seq<string>) returns (ids: seq<string>)
    ensures ids == NonEmpty(items)
  {
    ids := [];
    for i := 0 to |items|
      invariant ids == NonEmpty(items[..i])
    {
      assert items[..i + 1][..i] == items[..i];
      if items[i] != "" {
        ids := ids + [items[i]];
      }
    }
    assert items[..|items|] == items;
  }

  method AppendIds(head: string, ghost lines: seq<string>, ids: seq<string>) returns (s: string)
    requires |lines| >= 5 && head == Join(lines[..5]) && lines[5..] == ids
    ensures s == Join(lines)
  {
    s := head;
    for i := 0 to |ids|
      invariant s == Join(lines[..5 + i])
    {
      s := s + "\n" + ids[i];
      JoinSnoc(lines[..5 + i], ids[i]);
      assert lines[..6 + i] == lines[..5 + i] + [ids[i]];
    }
    assert lines[..|lines|] == lines;
  }

  lemma JoinFive(l: seq<string>)
    requires |l| >= 5
    ensures Join(l[..5]) == l[0] + "\n" + l[1] + "\n" + l[2] + "\n" + l[3] + "\n" + l[4]
  {
    assert Join(l[..1]) == l[0];
    JoinNext(l, 1);
    JoinNext(l, 2);
    JoinNext(l, 3);
    JoinNext(l, 4);
  }

  lemma JoinNext(l: seq<string>, k: nat)
    requires 0 < k < |l|
    ensures Join(l[..k + 1]) == Join(l[..k]) + "\n" + l[k]
  {
    JoinSnoc(l[..k], l[k]);
    assert l[..k + 1] == l[..k] + [l[k]];
  }

  /** Each id on a line of its own. */
  function OwnLines(ids: seq<string>): string {
    if ids == [] then "" else OwnLines(ids[..|ids| - 1]) + "\n" + ids[|ids| - 1]
  }

  lemma {:induction false} JoinOwnLines(front: seq<string>, ids: seq<string>)
    requires front != []
    ensures Join(front + ids) == Join(front) + OwnLines(ids)
    decreases |ids|
  {
    if ids == [] {
      assert front + ids == front;
    } else {
      var init, last := ids[..|ids| - 1], ids[|ids| - 1];
      JoinOwnLines(front, init);
      assert front + ids == front + init + [last];
      JoinSnoc(front + init, last);
    }
  }

  /** The text of a payload: verb, node id, time, audience, ticket, and then the ids in order. */
  lemma PayloadShape(q: Request, ids: seq<string>)
    requires PayloadOf(q).Some? && Ascending(ids) && multiset(ids) == multiset(NonEmpty(q.itemIds))
    ensures PayloadOf(q) == Some(
      q.verb + "\n" + q.nodeId + "\n" + PrintInt(q.timestampMs) + "\n" + CanonicalAudience(q.audience) + "\n" + q.ticket
      + OwnLines(ids))
  {
    AscendingUnique(ids, Sorted(NonEmpty(q.itemIds)));
    var lines := PayloadLines(q);
    assert lines == lines[..5] + ids;
    JoinFive(lines);
    JoinOwnLines(lines[..5], ids);
  }

  lemma HexDigits(c: char)
    ensures '0' <= c <= '9' || 'a' <= c <= 'f' <==> c in "0123456789abcdef"
  {
    var hex := "0123456789abcdef";
    assert hex[..10] == "0123456789" && hex[10..] == "abcdef";
    assert forall i :: 0 <= i < 10 ==> hex[i] as int == '0' as int + i;
    assert forall i :: 10 <= i < 16 ==> hex[i] as int == 'a' as int + i - 10;
    if '0' <= c <= '9' {
      assert hex[c as int - '0' as int] == c;
    } else if 'a' <= c <= 'f' {
      assert hex[c as int - 'a' as int + 10] == c;
    }
  }

  lemma {:induction false} NonEmptyKeeps(ids: seq<string>)
    ensures forall x :: x in NonEmpty(ids) <==> x in ids && x != ""
  {
    if ids != [] {
      NonEmptyKeeps(ids[..|ids| - 1]);
      assert ids == ids[..|ids| - 1] + [ids[|ids| - 1]];
    }
  }

  /** A request is refused exactly when some non-empty id is not canonical. */
  lemma RefusedIff(q: Request)
    ensures PayloadOf(q).None? <==>
      exists id :: id in q.itemIds && id != ""
        && !(|id| == 64 && forall i :: 0 <= i < |id| ==> id[i] in "0123456789abcdef")
  {
    NonEmptyKeeps(q.itemIds);
    var ids := NonEmpty(q.itemIds);
    forall id ensures IsCanonicalId(id) <==> |id| == 64 && forall i :: 0 <= i < |id| ==> id[i] in "0123456789abcdef" {
      forall i | 0 <= i < |id|
        ensures '0' <= id[i] <= '9' || 'a' <= id[i] <= 'f' <==> id[i] in "0123456789abcdef"
      {
        HexDigits(id[i]);
      }
    }
    if !AllCanonical(ids) {
      var k :| 0 <= k < |ids| && !IsCanonicalId(ids[k]);
      assert ids[k] in ids;
    }
  }

  /** The fields that must be free of newlines for a payload to bind them. */
  predicate OneLineFields(q: Request) {
    !Has(q.verb, '\n') && !Has(q.nodeId, '\n') && !Has(q.ticket, '\n') && !Has(q.audience, '\n')
  }

  lemma LinesAreSingle(q: Request)
    requires OneLineFields(q) && AllCanonical(NonEmpty(q.itemIds))
    ensures OneLineEach(PayloadLines(q))
  {
    AudienceStaysOneLine(q.audience);
    PrintIntInjective(q.timestampMs, q.timestampMs);
    IdsAreSingle(NonEmpty(q.itemIds));
  }

  lemma IdsAreSingle(ids: seq<string>)
    requires AllCanonical(ids)
    ensures OneLineEach(Sorted(ids))
  {
    CanonicalByContents(Sorted(ids), ids);
    var sorted := Sorted(ids);
    forall i | 0 <= i < |sorted| ensures !Has(sorted[i], '\n') {
      assert IsCanonicalId(sorted[i]);
    }
  }

  /** Two requests say the same thing. */
  predicate SameRequest(p: Request, q: Request) {
    p.verb == q.verb && p.nodeId == q.nodeId && p.timestampMs == q.timestampMs && p.ticket == q.ticket
    && CanonicalAudience(p.audience) == CanonicalAudience(q.audience)
    && multiset(NonEmpty(p.itemIds)) == multiset(NonEmpty(q.itemIds))
  }

  /**
   A payload binds every field: two requests with newline-free fields get the same payload exactly
   when they agree on everything but the order of their ids and empty ids.
   */
  lemma SamePayloadIff(p: Request, q: Request)
    requires OneLineFields(p) && OneLineFields(q) && PayloadOf(p).Some? && PayloadOf(q).Some?
    ensures PayloadOf(p) == PayloadOf(q) <==> SameRequest(p, q)
  {
    LinesAreSingle(p);
    LinesAreSingle(q);
    JoinInjective(PayloadLines(p), PayloadLines(q));
    PrintIntInjective(p.timestampMs, q.timestampMs);
    SameLinesIff(p, q);
  }

  lemma SameLinesIff(p: Request, q: Request)
    ensures PayloadLines(p) == PayloadLines(q) <==>
      p.verb == q.verb && p.nodeId == q.nodeId && PrintInt(p.timestampMs) == PrintInt(q.timestampMs)
      && CanonicalAudience(p.audience) == CanonicalAudience(q.audience) && p.ticket == q.ticket
      && multiset(NonEmpty(p.itemIds)) == multiset(NonEmpty(q.itemIds))
  {
    var a := [p.verb, p.nodeId, PrintInt(p.timestampMs), CanonicalAudience(p.audience), p.ticket];
    var b := [q.verb, q.nodeId, PrintInt(q.timestampMs), CanonicalAudience(q.audience), q.ticket];
    var x, y := Sorted(NonEmpty(p.itemIds)), Sorted(NonEmpty(q.itemIds));
    SameParts(a, x, b, y);
    SameFive(a, b);
    if multiset(x) == multiset(y) {
      AscendingUnique(x, y);
    }
  }

  lemma SameParts(a: seq<string>, x: seq<string>, b: seq<string>, y: seq<string>)
    requires |a| == |b|
    ensures a + x == b + y <==> a == b && x == y
  {
    assert (a + x)[..|a|] == a && (a + x)[|a|..] == x && (b + y)[..|a|] == b && (b + y)[|a|..] == y;
  }

  lemma SameFive(a: seq<string>, b: seq<string>)
    requires |a| == |b| == 5
    ensures a == b <==> a[0] == b[0] && a[1] == b[1] && a[2] == b[2] && a[3] == b[3] && a[4] == b[4]
  {
  }

  /** Listing the ids in another order, or adding empty ids, changes no payload, newlines or not. */
  lemma OrderNeverMatters(q: Request, items: seq<string>)
    requires multiset(NonEmpty(items)) == multiset(NonEmpty(q.itemIds))
    ensures PayloadOf(q.(itemIds := items)) == PayloadOf(q)
  {
    var x, y := NonEmpty(items), NonEmpty(q.itemIds);
    AscendingUnique(Sorted(x), Sorted(y));
    if AllCanonical(y) {
      CanonicalByContents(x, y);
    } else if AllCanonical(x) {
      CanonicalByContents(y, x);
    }
  }

  lemma CanonicalByContents(x: seq<string>, y: seq<string>)
    requires multiset(x) == multiset(y) && AllCanonical(y)
    ensures AllCanonical(x)
  {
    forall i | 0 <= i < |x| ensures IsCanonicalId(x[i]) {
      assert x[i] in multiset(x) && x[i] in y;
    }
  }

  /** Freedom from newlines is needed: a ticket that ends in a line with an id signs for that id. */
  lemma NewlineForgesAnId(q: Request, id: string)
    requires IsCanonicalId(id)
    ensures PayloadOf(q.(ticket := q.ticket + "\n" + id, itemIds := [])) == PayloadOf(q.(itemIds := [id]))
  {
    var p, r := q.(ticket := q.ticket + "\n" + id, itemIds := []), q.(itemIds := [id]);
    OneId(id);
    var a, b := PayloadLines(p), PayloadLines(r);
    assert a == a[..5] && b == b[..5] + [id] && b[..5][4] == q.ticket;
    JoinSnoc(b[..5], id);
    JoinFive(a);
    JoinFive(b);
    var front := a[0] + "\n" + a[1] + "\n" + a[2] + "\n" + a[3] + "\n";
    Regroup(front, q.ticket + "\n", id);
    Regroup(front, q.ticket, "\n");
  }

  lemma OneId(id: string)
    requires id != ""
    ensures NonEmpty([id]) == [id] && Sorted([id]) == [id]
  {
    assert [id][..0] == [];
    assert NonEmpty([id]) == NonEmpty([id][..0]) + [id];
    AscendingUnique(Sorted([id]), [id]);
  }
}
