/** URLs as text: what the parser makes of a text, and the printing it inverts. */
module UrlModel {
  import opened Memory
  import opened Sequences

  /** The components of a parsed URL; the schema keeps its ':' and the path its '/'. */
  datatype Url = Url(schema: string, user: Option<string>, pass: Option<string>, host: string, port: nat,
                     path: string, query: Option<string>, hash: Option<string>)

  // ---------------------------------------------------------------- searching

  /** strchr: the first c. */
  function Find(s: string, c: char): (r: Option<nat>)
    ensures r.Some? ==> r.value < |s| && s[r.value] == c && c !in s[..r.value]
    ensures r.None? <==> c !in s
  {
    if s == [] then None
    else if s[0] == c then Some(0)
    else
      var r := Find(s[1..], c);
      if r.None? then None else
        assert s[..r.value + 1] == [s[0]] + s[1..][..r.value];
        Some(r.value + 1)
  }

  /** strrchr: the last c. */
  function FindLast(s: string, c: char): (r: Option<nat>)
    ensures r.Some? ==> r.value < |s| && s[r.value] == c && c !in s[r.value + 1..]
    ensures r.None? <==> c !in s
  {
    if s == [] then None
    else if s[|s| - 1] == c then Some(|s| - 1)
    else
      var r := FindLast(s[..|s| - 1], c);
      if r.None? then None else
        assert s[r.value + 1..] == s[..|s| - 1][r.value + 1..] + [s[|s| - 1]];
        r
  }

  /** "://" stands at i. */
  predicate SchemaEndsAt(s: string, i: nat) {
    i + 3 <= |s| && s[i] == ':' && s[i + 1] == '/' && s[i + 2] == '/'
  }

  /** strstr for "://". */
  function FindSchemaEnd(s: string, from: nat): (r: Option<nat>)
    requires from <= |s|
    ensures r.Some? ==> from <= r.value && SchemaEndsAt(s, r.value)
    ensures r.Some? ==> forall i :: from <= i < r.value ==> !SchemaEndsAt(s, i)
    ensures r.None? ==> forall i :: from <= i ==> !SchemaEndsAt(s, i)
    decreases |s| - from
  {
    if SchemaEndsAt(s, from) then Some(from)
    else if from == |s| then None
    else FindSchemaEnd(s, from + 1)
  }

  /** The first c is where a text without c ends. */
  lemma FindAfter(s: string, c: char, t: string)
    requires c !in s
    ensures Find(s + [c] + t, c) == Some(|s|)
  {
    assert (s + [c] + t)[|s|] == c;
  }

  lemma FindAt(s: string, c: char, k: nat)
    requires k < |s| && s[k] == c && forall j :: 0 <= j < k ==> s[j] != c
    ensures Find(s, c) == Some(k)
  {
  }

  lemma {:induction false} FindLastBefore(s: string, c: char, t: string)
    requires c !in t
    ensures FindLast(s + [c] + t, c) == Some(|s|)
    decreases |t|
  {
    var u := s + [c] + t;
    if t != [] {
      assert u[|u| - 1] == t[|t| - 1];
      assert u[..|u| - 1] == s + [c] + t[..|t| - 1];
      FindLastBefore(s, c, t[..|t| - 1]);
    }
  }

  lemma Halves(s: string, c: char, t: string)
    ensures var u := s + [c] + t; u[..|s|] == s && u[|s|] == c && u[|s| + 1..] == t
  {
  }

  // ---------------------------------------------------------------- numbers

  predicate IsDigit(c: char) {
    '0' <= c <= '9'
  }

  predicate IsSpace(c: char) {
    c == ' ' || '\t' <= c <= '\r'
  }

  /** The number at the head of a text. */
  function Leading(s: string, sofar: nat): nat {
    if s == [] || !IsDigit(s[0]) then sofar else Leading(s[1..], 10 * sofar + (s[0] as nat - '0' as nat))
  }

  /** atoi: white space, a sign, digits. */
  function Atoi(s: string): int {
    if s == [] then 0
    else if IsSpace(s[0]) then Atoi(s[1..])
    else if s[0] == '-' then 0 - Leading(s[1..], 0)
    else if s[0] == '+' then Leading(s[1..], 0)
    else Leading(s, 0)
  }

  function Decimal(n: nat): (s: string)
    ensures |s| > 0 && forall i :: 0 <= i < |s| ==> IsDigit(s[i])
  {
    if n < 10 then [('0' as nat + n) as char] else Decimal(n / 10) + [('0' as nat + n % 10) as char]
  }

  lemma {:induction false} LeadingSplits(s: string, t: string, sofar: nat)
    requires forall i :: 0 <= i < |s| ==> IsDigit(s[i])
    ensures Leading(s + t, sofar) == Leading(t, Leading(s, sofar))
    decreases |s|
  {
    if s == [] {
      assert s + t == t;
    } else {
      assert (s + t)[1..] == s[1..] + t;
      LeadingSplits(s[1..], t, 10 * sofar + (s[0] as nat - '0' as nat));
    }
  }

  lemma {:induction false} LeadingDecimal(n: nat)
    ensures Leading(Decimal(n), 0) == n
  {
    if n >= 10 {
      var d := ('0' as nat + n % 10) as char;
      LeadingDecimal(n / 10);
      LeadingSplits(Decimal(n / 10), [d], 0);
      assert Leading([d], n / 10) == Leading([], 10 * (n / 10) + n % 10);
    }
  }

  /** Reading a printed number. */
  lemma AtoiDecimal(n: nat)
    ensures Atoi(Decimal(n)) == n
  {
    LeadingDecimal(n);
    assert IsDigit(Decimal(n)[0]);
  }

  /** Behind white space and a sign, a printed number is read up to the first other character. */
  lemma {:induction false} AtoiSigned(space: string, sign: string, n: nat, tail: string)
    requires (forall i :: 0 <= i < |space| ==> IsSpace(space[i])) && sign in {"", "+", "-"}
    requires tail == "" || !IsDigit(tail[0])
    ensures Atoi(space + (sign + (Decimal(n) + tail))) == if sign == "-" then 0 - n else n
    decreases |space|
  {
    if space == [] {
      assert space + (sign + (Decimal(n) + tail)) == sign + (Decimal(n) + tail);
      LeadingDecimal(n);
      LeadingSplits(Decimal(n), tail, 0);
      AtoiBehindSign(sign, Decimal(n) + tail, n);
    } else {
      var text := space + (sign + (Decimal(n) + tail));
      assert text[0] == space[0] && text[1..] == space[1..] + (sign + (Decimal(n) + tail));
      AtoiSigned(space[1..], sign, n, tail);
    }
  }

  lemma AtoiBehindSign(sign: string, number: string, n: nat)
    requires number != "" && IsDigit(number[0]) && Leading(number, 0) == n && sign in {"", "+", "-"}
    ensures Atoi(sign + number) == if sign == "-" then 0 - n else n
  {
    if sign == "" {
      assert sign + number == number;
    } else {
      assert (sign + number)[0] == sign[0] && (sign + number)[1..] == number;
    }
  }

  // ---------------------------------------------------------------- parsing

  /** The unsigned short a port is stored in. */
  const PORTS: int := 65536

  datatype Place = Place(path: string, query: Option<string>, hash: Option<string>)
  datatype Login = Login(user: Option<string>, pass: Option<string>, server: string)
  datatype Server = Server(host: string, port: nat)
  datatype Account = Account(user: string, pass: Option<string>)

  /** The query runs from its mark to a later hash mark, the hash to a later query mark, and the path
      to the earlier of the two. */
  function CutPlace(s: string, q: Option<nat>, h: Option<nat>): Place
    requires (q.Some? ==> q.value < |s|) && (h.Some? ==> h.value < |s|) && (q.Some? ==> q != h)
  {
    if q.None? && h.None? then Place(s, None, None)
    else if h.None? then Place(s[..q.value], Some(s[q.value + 1..]), None)
    else if q.None? then Place(s[..h.value], None, Some(s[h.value + 1..]))
    else if q.value < h.value then Place(s[..q.value], Some(s[q.value + 1..h.value]), Some(s[h.value + 1..]))
    else Place(s[..h.value], Some(s[q.value + 1..]), Some(s[h.value + 1..q.value]))
  }

  /** Both marks are looked for before either cut. */
  function ParsePlace(s: string): Place {
    CutPlace(s, Find(s, '?'), Find(s, '#'))
  }

  /** user:pass; an empty password counts as none. */
  function CutAccount(who: string, colon: Option<nat>): Account
    requires colon.Some? ==> colon.value < |who|
  {
    if colon.None? then Account(who, None)
    else
      var pass := who[colon.value + 1..];
      Account(who[..colon.value], if pass == "" then None else Some(pass))
  }

  function ParseAccount(who: string): Account {
    CutAccount(who, Find(who, ':'))
  }

  /** What comes before the last '@' is the account. */
  function ParseLogin(s: string): Login {
    var at := FindLast(s, '@');
    if at.None? then Login(None, None, s)
    else
      var account := ParseAccount(s[..at.value]);
      Login(Some(account.user), account.pass, s[at.value + 1..])
  }

  function ParseServer(s: string): Server {
    var colon := Find(s, ':');
    if colon.None? then Server(s, 0)
    else Server(s[..colon.value], Atoi(s[colon.value + 1..]) % PORTS)
  }

  /** The text before the first '/' names the server, the rest the place. */
  function ServerText(rest: string): string {
    var slash := Find(rest, '/');
    if slash.None? then rest else rest[..slash.value]
  }

  function PlaceOf(rest: string): Place {
    var slash := Find(rest, '/');
    if slash.None? then Place("/", None, None) else ParsePlace(rest[slash.value..])
  }

  /** Everything after "://". */
  function ParseRest(schema: string, rest: string): Url {
    var place := PlaceOf(rest);
    var login := ParseLogin(ServerText(rest));
    var server := ParseServer(login.server);
    Url(schema, login.user, login.pass, server.host, server.port, place.path, place.query, place.hash)
  }

  /** url_parse; len is the length the caller gives. */
  function Parse(url: string, len: nat): Option<Url> {
    if len < 4 then None
    else
      var end := FindSchemaEnd(url, 0);
      if end.None? then None
      else Some(ParseRest(url[..end.value + 1], url[end.value + 3..]))
  }

  // ---------------------------------------------------------------- printing

  /** A URL to print: the scheme without its ':', and what the text may leave out. */
  datatype Parts = Parts(name: string, user: Option<string>, pass: Option<string>, host: string, port: Option<nat>,
                         path: Option<string>, query: Option<string>, hash: Option<string>)

  predicate Free(s: string, marks: string) {
    forall c :: c in marks ==> c !in s
  }

  function Optional(mark: char, s: Option<string>): string {
    if s.None? then "" else [mark] + s.value
  }

  function PrintServer(host: string, port: Option<nat>): string {
    host + if port.None? then "" else [':'] + Decimal(port.value)
  }

  function PrintLogin(user: Option<string>, pass: Option<string>): string {
    if user.None? then "" else user.value + Optional(':', pass) + ['@']
  }

  function PrintPlace(path: string, query: Option<string>, hash: Option<string>): string {
    path + Optional('?', query) + Optional('#', hash)
  }

  /** The parts of the text after the scheme. */
  function Front(p: Parts): string {
    PrintLogin(p.user, p.pass) + PrintServer(p.host, p.port)
  }

  function Back(p: Parts): string {
    PrintPlace(if p.path.None? then "" else p.path.value, p.query, p.hash)
  }

  function Print(p: Parts): string {
    p.name + "://" + (Front(p) + Back(p))
  }

  /** No component holds a mark that the parser searches for in its part of the text, and query and
      hash come with a path.  Schemes may hold ':' and '/', passwords ':' and '@', users '@', queries
      '?' and '/', hashes '#' and '/'. */
  predicate Printable(p: Parts) {
    && FindSchemaEnd(p.name, 0).None?
    && (p.user.Some? ==> Free(p.user.value, "/:"))
    && (p.pass.Some? ==> (p.pass.value == "" || p.user.Some?) && '/' !in p.pass.value)
    && Free(p.host, "/:@")
    && (p.port.Some? ==> p.port.value < PORTS)
    && (p.path.Some? ==> p.path.value != "" && p.path.value[0] == '/' && Free(p.path.value, "?#"))
    && (p.path.None? ==> p.query.None? && p.hash.None?)
    && (p.query.Some? ==> '#' !in p.query.value)
    && (p.hash.Some? && p.query.None? ==> '?' !in p.hash.value)
  }

  /** Every component as it was; an empty password is none, no port is 0, no path is "/". */
  function Recovered(p: Parts): Url {
    Url(p.name + ":", p.user, if p.pass == Some("") then None else p.pass, p.host,
        if p.port.None? then 0 else p.port.value, if p.path.None? then "/" else p.path.value, p.query, p.hash)
  }

  lemma MovesRight(a: string, b: string, c: string, d: string)
    ensures a + (b + c) + d == a + (b + (c + d))
  {
  }

  lemma ServerSplits(host: string, digits: string)
    requires ':' !in host
    ensures ParseServer(host + ([':'] + digits)) == Server(host, Atoi(digits) % PORTS)
  {
    var s := host + [':'] + digits;
    FindAfter(host, ':', digits);
    Halves(host, ':', digits);
    assert ParseServer(s) == Server(host, Atoi(digits) % PORTS);
    Associates(host, [':'], digits);
  }

  lemma ServerOfText(text: string, host: string, digits: string, n: nat)
    requires text == host + ([':'] + digits) && ':' !in host && Atoi(digits) == n < PORTS
    ensures ParseServer(text) == Server(host, n)
  {
    ServerSplits(host, digits);
  }

  lemma ServerBack(host: string, port: Option<nat>)
    requires ':' !in host && (port.Some? ==> port.value < PORTS)
    ensures ParseServer(PrintServer(host, port)) == Server(host, if port.None? then 0 else port.value)
  {
    if port.Some? {
      AtoiDecimal(port.value);
      ServerOfText(PrintServer(host, port), host, Decimal(port.value), port.value);
    } else {
      assert PrintServer(host, port) == host;
    }
  }

  lemma ServerIsFree(host: string, port: Option<nat>)
    requires Free(host, "/:@")
    ensures Free(PrintServer(host, port), "/@")
  {
    forall c | c in "/@" ensures c !in PrintServer(host, port) {
      assert c in "/:@" && !IsDigit(c);
    }
  }

  /** A login of `who` before a server without '@'. */
  lemma LoginSplits(who: string, server: string)
    requires '@' !in server
    ensures ParseLogin(who + ['@'] + server) == Login(Some(ParseAccount(who).user), ParseAccount(who).pass, server)
  {
    FindLastBefore(who, '@', server);
    Halves(who, '@', server);
  }

  lemma WithPassword(user: string, pass: string, server: string)
    requires '@' !in server && ':' !in user
    ensures ParseLogin(user + [':'] + pass + ['@'] + server) ==
            Login(Some(user), if pass == "" then None else Some(pass), server)
  {
    LoginSplits(user + [':'] + pass, server);
    FindAfter(user, ':', pass);
    Halves(user, ':', pass);
  }

  lemma UserBack(user: string, pass: Option<string>, server: string)
    requires '@' !in server && ':' !in user
    ensures ParseLogin(user + Optional(':', pass) + ['@'] + server) ==
            Login(Some(user), if pass == Some("") then None else pass, server)
  {
    if pass.Some? {
      Associates(user, [':'], pass.value);
      WithPassword(user, pass.value, server);
    } else {
      LoginSplits(user, server);
      assert user + Optional(':', pass) == user;
    }
  }

  lemma LoginBack(user: Option<string>, pass: Option<string>, server: string)
    requires Free(server, "/@") && (user.Some? ==> Free(user.value, "/:"))
    requires pass.Some? ==> pass.value == "" || user.Some?
    ensures ParseLogin(PrintLogin(user, pass) + server) == Login(user, if pass == Some("") then None else pass, server)
  {
    assert '@' in "/@" && ':' in "/:";
    if user.Some? {
      UserBack(user.value, pass, server);
    } else {
      assert PrintLogin(user, pass) + server == server;
    }
  }

  lemma LoginHasNoSlash(user: Option<string>, pass: Option<string>, server: string)
    requires Free(server, "/@") && (user.Some? ==> Free(user.value, "/:"))
    requires pass.Some? ==> '/' !in pass.value
    ensures '/' !in PrintLogin(user, pass) + server
  {
    assert '/' in "/@" && '/' in "/:";
  }

  lemma PlaceBack(path: string, query: Option<string>, hash: Option<string>)
    requires Free(path, "?#") && (query.Some? ==> '#' !in query.value)
    requires hash.Some? && query.None? ==> '?' !in hash.value
    ensures ParsePlace(PrintPlace(path, query, hash)) == Place(path, query, hash)
  {
    assert '?' in "?#" && '#' in "?#";
    if query.Some? && hash.Some? {
      BothBack(path, query.value, hash.value);
    } else if query.Some? {
      QueryBack(path, query.value);
    } else if hash.Some? {
      HashBack(path, hash.value);
    } else {
      assert PrintPlace(path, query, hash) == path;
    }
  }

  lemma BothBack(path: string, query: string, hash: string)
    requires '?' !in path && '#' !in path && '#' !in query
    ensures ParsePlace(PrintPlace(path, Some(query), Some(hash))) == Place(path, Some(query), Some(hash))
  {
    Regrouped(path, query, hash);
    MarksFound(path, query, hash);
    BothPlaces(PrintPlace(path, Some(query), Some(hash)), path, query, hash);
  }

  lemma MarksFound(path: string, query: string, hash: string)
    requires '?' !in path && '#' !in path && '#' !in query
    ensures Find(path + ['?'] + (query + ['#'] + hash), '?') == Some(|path|)
    ensures Find(path + ['?'] + query + ['#'] + hash, '#') == Some(|path| + 1 + |query|)
  {
    FindAfter(path, '?', query + ['#'] + hash);
    FindAfter(path + ['?'] + query, '#', hash);
  }

  lemma Regrouped(path: string, query: string, hash: string)
    ensures var s := PrintPlace(path, Some(query), Some(hash));
      && s == path + ['?'] + (query + ['#'] + hash) && s == path + ['?'] + query + ['#'] + hash
      && path + ['?'] + query <= s && s[|path| + |query| + 2..] == hash
  {
    var front := path + ['?'] + query;
    Associates(path, ['?'], query);
    Associates(front, ['#'], hash);
    Associates(path + ['?'], query, ['#'] + hash);
    Associates(query, ['#'], hash);
    Halves(front, '#', hash);
  }

  lemma BothPlaces(s: string, path: string, query: string, hash: string)
    requires Find(s, '?') == Some(|path|) && Find(s, '#') == Some(|path| + 1 + |query|)
    requires path + ['?'] + query <= s && s[|path| + |query| + 2..] == hash
    ensures ParsePlace(s) == Place(path, Some(query), Some(hash))
  {
    assert s[..|path|] == path && s[|path| + 1..|path| + 1 + |query|] == query;
  }

  lemma QueryBack(path: string, query: string)
    requires '?' !in path && '#' !in path && '#' !in query
    ensures ParsePlace(PrintPlace(path, Some(query), None)) == Place(path, Some(query), None)
  {
    var s := path + ['?'] + query;
    FindAfter(path, '?', query);
    Halves(path, '?', query);
    assert '#' !in s;
    Associates(path, ['?'], query);
    assert s + "" == s;
  }

  lemma HashBack(path: string, hash: string)
    requires '?' !in path && '#' !in path && '?' !in hash
    ensures ParsePlace(PrintPlace(path, None, Some(hash))) == Place(path, None, Some(hash))
  {
    var s := path + ['#'] + hash;
    FindAfter(path, '#', hash);
    Halves(path, '#', hash);
    assert '?' !in s;
    Associates(path, ['#'], hash);
    assert path + "" == path;
  }

  /** The scheme ends at the first "://": behind the name exactly if the name holds none. */
  lemma SchemaBack(name: string, rest: string)
    ensures FindSchemaEnd(name + "://" + rest, 0) == Some(|name|) <==> FindSchemaEnd(name, 0).None?
  {
    var s := name + "://" + rest;
    assert SchemaEndsAt(s, |name|);
    assert s[|name| + 1] == '/' && s[|name|] == ':';
    forall i: nat | i < |name| ensures SchemaEndsAt(s, i) <==> SchemaEndsAt(name, i) {
      if i + 3 > |name| { assert i + 1 == |name| || i + 2 == |name|; }
    }
  }

  lemma FrontBack(p: Parts)
    requires Printable(p)
    ensures '/' !in Front(p)
    ensures var login := ParseLogin(Front(p)); login.user == Recovered(p).user && login.pass == Recovered(p).pass
    ensures ParseServer(ParseLogin(Front(p)).server) == Server(p.host, Recovered(p).port)
  {
    var server := PrintServer(p.host, p.port);
    assert ':' in "/:@";
    ServerBack(p.host, p.port);
    ServerIsFree(p.host, p.port);
    LoginBack(p.user, p.pass, server);
    LoginHasNoSlash(p.user, p.pass, server);
  }

  /** The text after the scheme, split at its first '/'. */
  lemma RestSplits(schema: string, front: string, back: string)
    requires '/' !in front && (back == "" || back[0] == '/')
    ensures ParseRest(schema, front + back) ==
      var place := if back == "" then Place("/", None, None) else ParsePlace(back);
      var login := ParseLogin(front);
      var server := ParseServer(login.server);
      Url(schema, login.user, login.pass, server.host, server.port, place.path, place.query, place.hash)
  {
    if back == "" {
      assert front + back == front;
    } else {
      FindAfter(front, '/', back[1..]);
      assert front + back == front + ['/'] + back[1..];
      assert (front + back)[|front|..] == back && (front + back)[..|front|] == front;
    }
  }

  lemma RestBack(p: Parts, schema: string)
    requires Printable(p)
    ensures ParseRest(schema, Front(p) + Back(p)) == Recovered(p).(schema := schema)
  {
    FrontBack(p);
    RestSplits(schema, Front(p), Back(p));
    if p.path.Some? {
      PlaceBack(p.path.value, p.query, p.hash);
    }
  }

  lemma PrintSplits(p: Parts)
    ensures var rest := Front(p) + Back(p);
      Print(p)[..|p.name| + 1] == p.name + ":" && Print(p)[|p.name| + 3..] == rest
  {
  }

  lemma PrintableParses(p: Parts, len: nat)
    requires Printable(p) && 4 <= len
    ensures Parse(Print(p), len) == Some(Recovered(p))
  {
    SchemaBack(p.name, Front(p) + Back(p));
    RestBack(p, p.name + ":");
    PrintSplits(p);
  }

  // What the parser returns, whatever the text

  lemma ServerIsClean(text: string)
    requires Free(text, "/@")
    ensures Free(ParseServer(text).host, "/:@") && ParseServer(text).port < PORTS
  {
    forall c | c in "/:@" ensures c !in ParseServer(text).host {
      if c != ':' { assert c in "/@"; }
    }
  }

  lemma LoginIsClean(text: string)
    requires '/' !in text
    ensures var l := ParseLogin(text);
      && Free(l.server, "/@")
      && (l.user.Some? ==> Free(l.user.value, "/:"))
      && (l.pass.Some? ==> l.user.Some? && '/' !in l.pass.value)
  {
    var l := ParseLogin(text);
    if l.user.Some? {
      var at := FindLast(text, '@').value;
      assert text[..at] <= text && '/' !in text[..at];
    }
  }

  lemma PlaceIsClean(text: string)
    requires text != "" && text[0] == '/'
    ensures var place := ParsePlace(text);
      && place.path != "" && place.path[0] == '/' && Free(place.path, "?#")
      && |PrintPlace(place.path, place.query, place.hash)| == |text|
  {
  }

  /** The components a parsed URL has never hold a mark that would have ended them. */
  lemma ParsedIsClean(schema: string, rest: string)
    ensures var u := ParseRest(schema, rest);
      && (u.user.Some? ==> Free(u.user.value, "/:"))
      && (u.pass.Some? ==> u.user.Some? && '/' !in u.pass.value)
      && Free(u.host, "/:@") && u.port < PORTS
      && u.path != "" && u.path[0] == '/' && Free(u.path, "?#")
  {
    var text, slash := ServerText(rest), Find(rest, '/');
    assert '/' !in text;
    LoginIsClean(text);
    ServerIsClean(ParseLogin(text).server);
    if slash.Some? { PlaceIsClean(rest[slash.value..]); }
  }

  lemma QueryIsCut(s: string, path: string, query: string)
    requires Free(path, "?#") && path + ['?'] + query <= s && '#' in query
    ensures ParsePlace(s).query.Some? && |ParsePlace(s).query.value| < |query|
  {
    var i := Find(query, '#').value;
    assert '?' in "?#" && '#' in "?#";
    forall j | 0 <= j <= |path| + i ensures s[j] == (path + ['?'] + query)[j] && s[j] != '#' {
      if j > |path| { assert query[..i][j - |path| - 1] == s[j]; }
    }
    FindAt(s, '?', |path|);
    FindAt(s, '#', |path| + 1 + i);
  }

  lemma HashIsCut(s: string, path: string, hash: string)
    requires Free(path, "?#") && s == path + ['#'] + hash && '?' in hash
    ensures ParsePlace(s).query.Some?
  {
    assert '?' in "?#" && '#' in "?#";
    assert s[|path| + 1..] == hash;
  }

  lemma QueryNeeds(path: string, query: string, hash: Option<string>)
    requires Free(path, "?#") && '#' in query
    ensures ParsePlace(PrintPlace(path, Some(query), hash)) != Place(path, Some(query), hash)
  {
    Associates(path, ['?'], query);
    QueryIsCut(PrintPlace(path, Some(query), hash), path, query);
  }

  lemma HashNeeds(path: string, hash: string)
    requires Free(path, "?#") && '?' in hash
    ensures ParsePlace(PrintPlace(path, None, Some(hash))) != Place(path, None, Some(hash))
  {
    Associates(path, ['#'], hash);
    assert path + "" == path;
    HashIsCut(PrintPlace(path, None, Some(hash)), path, hash);
  }

  lemma PlaceNeeds(path: string, query: Option<string>, hash: Option<string>)
    requires Free(path, "?#")
    ensures ParsePlace(PrintPlace(path, query, hash)) == Place(path, query, hash) ==>
      && (query.Some? ==> '#' !in query.value)
      && (hash.Some? && query.None? ==> '?' !in hash.value)
  {
    if query.Some? && '#' in query.value {
      QueryNeeds(path, query.value, hash);
    } else if hash.Some? && query.None? && '?' in hash.value {
      HashNeeds(path, hash.value);
    }
  }

  /** A '/' inside query or hash does not replace the path: what follows is shorter than they are. */
  lemma PathIsNeeded(schema: string, front: string, query: Option<string>, hash: Option<string>)
    requires '/' !in front && (query.Some? || hash.Some?)
    ensures var u := ParseRest(schema, front + PrintPlace("", query, hash)); u.query != query || u.hash != hash
  {
    var tail := PrintPlace("", query, hash);
    var rest := front + tail;
    var slash := Find(rest, '/');
    if slash.Some? {
      PlaceIsClean(rest[slash.value..]);
    }
  }

  lemma FrontHasNoSlash(p: Parts)
    requires (p.user.Some? ==> '/' !in p.user.value) && (p.pass.Some? ==> '/' !in p.pass.value) && '/' !in p.host
    ensures '/' !in Front(p)
  {
  }

  lemma ParsedNeeds(p: Parts, schema: string)
    requires ParseRest(schema, Front(p) + Back(p)) == Recovered(p).(schema := schema)
    requires FindSchemaEnd(p.name, 0).None?
    ensures Printable(p)
  {
    ParsedIsClean(schema, Front(p) + Back(p));
    assert '/' in "/:" && '/' in "/:@";
    FrontHasNoSlash(p);
    if p.path.Some? {
      assert Back(p)[0] == '/';
      RestSplits(schema, Front(p), Back(p));
      PlaceNeeds(p.path.value, p.query, p.hash);
    } else if p.query.Some? || p.hash.Some? {
      PathIsNeeded(schema, Front(p), p.query, p.hash);
    }
  }

  /** Parsing a printed URL recovers every component exactly if each is free of the marks that end it
      and query and hash come with a path. */
  lemma ParsePrint(p: Parts, len: nat)
    ensures Parse(Print(p), len) == Some(Recovered(p)) <==> 4 <= len && Printable(p)
  {
    if 4 <= len && Printable(p) {
      PrintableParses(p, len);
    } else if Parse(Print(p), len) == Some(Recovered(p)) {
      PrintSplits(p);
      SchemaBack(p.name, Front(p) + Back(p));
      var end := FindSchemaEnd(Print(p), 0).value;
      assert |Print(p)[..end + 1]| == end + 1 == |p.name| + 1;
      ParsedNeeds(p, p.name + ":");
    }
  }

  // ---------------------------------------------------------------- query and hash without a path

  /** A query is found exactly if its mark stands behind the first '/', and so is a hash. */
  lemma QueryExactlyWhen(schema: string, rest: string)
    ensures var u, slash := ParseRest(schema, rest), Find(rest, '/');
      && (u.query.Some? <==> slash.Some? && '?' in rest[slash.value..])
      && (u.hash.Some? <==> slash.Some? && '#' in rest[slash.value..])
  {
  }

  lemma NumberBeforeTail(n: nat, tail: string)
    requires tail == "" || !IsDigit(tail[0])
    ensures Atoi(Decimal(n) + tail) == n
  {
    LeadingDecimal(n);
    LeadingSplits(Decimal(n), tail, 0);
    assert IsDigit((Decimal(n) + tail)[0]);
  }

  lemma PortWithTail(text: string, host: string, n: nat, digits: string, tail: string)
    requires text == host + ([':'] + digits) + tail && ':' !in host && Atoi(digits + tail) == n < PORTS
    ensures ParseServer(text) == Server(host, n)
  {
    MovesRight(host, [':'], digits, tail);
    ServerOfText(text, host, digits + tail, n);
  }

  /** The port that the text behind a ':' is read as. */
  function PortOf(digits: Option<string>): nat {
    if digits.None? then 0 else Atoi(digits.value) % PORTS
  }

  /** A text with at most one ':' that counts, its first. */
  lemma ServerParts(host: string, digits: Option<string>)
    requires ':' !in host
    ensures ParseServer(host + Optional(':', digits)) == Server(host, PortOf(digits))
  {
    if digits.Some? {
      ServerSplits(host, digits.value);
    } else {
      assert host + "" == host;
    }
  }

  lemma ServerWithTail(host: string, port: Option<nat>, head: string, digits: Option<string>)
    requires ':' !in host && ':' !in head && (port.Some? ==> port.value < PORTS)
    requires var tail := head + Optional(':', digits); port.Some? ==> tail == "" || !IsDigit(tail[0])
    ensures ParseServer(PrintServer(host, port) + (head + Optional(':', digits))) ==
            if port.None? then Server(host + head, PortOf(digits)) else Server(host, port.value)
  {
    var tail := head + Optional(':', digits);
    if port.Some? {
      assert PrintServer(host, port) == host + ([':'] + Decimal(port.value));
      NumberBeforeTail(port.value, tail);
      PortWithTail(PrintServer(host, port) + tail, host, port.value, Decimal(port.value), tail);
    } else {
      ServerParts(host + head, digits);
      assert PrintServer(host, port) == host;
      Associates(host, head, Optional(':', digits));
    }
  }

  lemma NoPath(schema: string, text: string)
    requires '/' !in text
    ensures var login := ParseLogin(text);
      var server := ParseServer(login.server);
      ParseRest(schema, text) ==
      Url(schema, login.user, login.pass, server.host, server.port, "/", None, None)
  {
  }

  lemma BothFree(s: string, t: string)
    requires Free(s, "/@") && Free(t, "/@")
    ensures Free(s + t, "/@")
  {
  }

  lemma ServerOnly(schema: string, user: Option<string>, pass: Option<string>, server: string)
    requires Free(server, "/@") && (user.Some? ==> Free(user.value, "/:"))
    requires pass.Some? ==> (pass.value == "" || user.Some?) && '/' !in pass.value
    ensures ParseRest(schema, PrintLogin(user, pass) + server) ==
            Url(schema, user, if pass == Some("") then None else pass,
                ParseServer(server).host, ParseServer(server).port, "/", None, None)
  {
    LoginBack(user, pass, server);
    LoginHasNoSlash(user, pass, server);
    NoPath(schema, PrintLogin(user, pass) + server);
  }

  /** Text without '@' behind a server without a path, such as a query: behind a port it is lost, and
      else it becomes part of the host up to its first ':', and is read as the port from there. */
  lemma TailStaysInHost(p: Parts, schema: string, head: string, digits: Option<string>)
    requires Printable(p) && p.path.None? && ':' !in head
    requires var tail := head + Optional(':', digits);
      Free(tail, "/@") && (p.port.Some? ==> tail == "" || !IsDigit(tail[0]))
    ensures ParseRest(schema, Front(p) + (head + Optional(':', digits))) ==
            if p.port.Some? then Recovered(p).(schema := schema)
            else Recovered(p).(schema := schema, host := p.host + head, port := PortOf(digits))
  {
    var tail := head + Optional(':', digits);
    assert ':' in "/:@";
    ServerIsFree(p.host, p.port);
    BothFree(PrintServer(p.host, p.port), tail);
    ServerWithTail(p.host, p.port, head, digits);
    ServerOnly(schema, p.user, p.pass, PrintServer(p.host, p.port) + tail);
    Associates(PrintLogin(p.user, p.pass), PrintServer(p.host, p.port), tail);
  }

  lemma AccountParts(user: string, pass: Option<string>)
    requires ':' !in user
    ensures ParseAccount(user + Optional(':', pass)) == Account(user, if pass == Some("") then None else pass)
  {
    if pass.Some? {
      FindAfter(user, ':', pass.value);
      Halves(user, ':', pass.value);
      Associates(user, [':'], pass.value);
    } else {
      assert user + "" == user;
    }
  }

  lemma LoginOnly(schema: string, who: string, server: string)
    requires '/' !in who && Free(server, "/@")
    ensures ParseRest(schema, who + ['@'] + server) ==
            Url(schema, Some(ParseAccount(who).user), ParseAccount(who).pass,
                ParseServer(server).host, ParseServer(server).port, "/", None, None)
  {
    assert '/' in "/@" && '@' in "/@";
    LoginSplits(who, server);
    NoPath(schema, who + ['@'] + server);
  }

  /** If the text without a path holds '@', all before its last one is the login, the server's name and
      what follows it included: the user up to the first ':', the password from there.  The host comes
      from behind that '@'. */
  lemma TailMovesToLogin(schema: string, user: string, pass: Option<string>, host: string, digits: Option<string>)
    requires ':' !in user && ':' !in host
    requires var server := host + Optional(':', digits); Free(server, "/@")
    requires '/' !in user + Optional(':', pass)
    ensures ParseRest(schema, user + Optional(':', pass) + ['@'] + (host + Optional(':', digits))) ==
            Url(schema, Some(user), if pass == Some("") then None else pass, host, PortOf(digits), "/", None, None)
  {
    AccountParts(user, pass);
    ServerParts(host, digits);
    LoginOnly(schema, user + Optional(':', pass), host + Optional(':', digits));
  }

  lemma PlainHost(schema: string, text: string)
    requires '/' !in text && ':' !in text && '@' !in text
    ensures ParseRest(schema, text) == Url(schema, None, None, text, 0, "/", None, None)
  {
    NoPath(schema, text);
  }

  /** A text whose scheme is one letter. */
  lemma ShortScheme(text: string, len: nat)
    requires 4 <= len && |text| >= 4 && text[0] != ':' && SchemaEndsAt(text, 1)
    ensures Parse(text, len) == Some(ParseRest(text[..2], text[4..]))
  {
  }

  /** "r://h?q": the query stays in the host. */
  lemma QueryIsLost(h: string, q: string)
    requires Free(h, "/:@") && Free(q, "/:@")
    ensures var text := "r://" + (h + ['?'] + q);
      Parse(text, |text|) == Some(Url("r:", None, None, h + ['?'] + q, 0, "/", None, None))
  {
    var server := h + ['?'] + q;
    var text := "r://" + server;
    assert ':' in "/:@" && '/' in "/:@" && '@' in "/:@";
    assert '/' !in server && ':' !in server && '@' !in server;
    assert text[..2] == "r:" && text[4..] == server;
    ShortScheme(text, |text|);
    PlainHost("r:", server);
  }

  /** "r://h?x@y": the server's name and the query up to the '@' become the user, the rest the host. */
  lemma QueryBecomesUser(schema: string, h: string, x: string, y: string)
    requires Free(h, "/:@") && Free(x, "/:@") && Free(y, "/:@")
    ensures ParseRest(schema, h + ['?'] + x + ['@'] + y) ==
            Url(schema, Some(h + ['?'] + x), None, y, 0, "/", None, None)
  {
    assert ':' in "/:@" && '/' in "/:@" && '@' in "/:@";
    var who := h + ['?'] + x;
    assert ':' !in who && '/' !in who;
    LoginOnly(schema, who, y);
  }
}
