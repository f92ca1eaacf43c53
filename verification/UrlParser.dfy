/** url_parse: the text is copied behind the result and cut up in place; the components are
    positions in that copy. */
module UrlParser {
  import opened Memory
  import opened UrlModel

  const NUL: char := '\0'

  // ---------------------------------------------------------------- C strings in a buffer

  /** The C string s starts at i. */
  ghost predicate StrAt(b: seq<char>, i: nat, s: string) {
    && i + |s| < |b|
    && forall j {:trigger b[j]} :: i <= j <= i + |s| ==> if j == i + |s| then b[j] == NUL else b[j] == s[j - i] != NUL
  }

  ghost predicate OptAt(b: seq<char>, i: Option<nat>, s: Option<string>) {
    match (i, s)
    case (Some(x), Some(t)) => StrAt(b, x, t)
    case (None, None) => true
    case _ => false
  }

  ghost predicate Same(b: seq<char>, c: seq<char>, lo: nat, hi: nat)
    requires lo <= hi <= |b| && hi <= |c|
  {
    forall k :: lo <= k < hi ==> b[k] == c[k]
  }

  /** The characters x to y of a string, unchanged and followed by a NUL, are a string. */
  lemma SubStr(b: seq<char>, c: seq<char>, i: nat, s: string, x: nat, y: nat)
    requires StrAt(b, i, s) && |b| == |c| && x <= y <= |s|
    requires Same(b, c, i + x, i + y) && c[i + y] == NUL
    ensures StrAt(c, i + x, s[x..y])
  {
  }

  lemma TailStr(b: seq<char>, i: nat, s: string, k: nat)
    requires StrAt(b, i, s) && k <= |s|
    ensures StrAt(b, i + k, s[k..])
  {
  }

  /** c is b with NULs written at p and q. */
  ghost predicate CutBy(b: seq<char>, c: seq<char>, p: Option<nat>, q: Option<nat>) {
    |b| == |c| && forall j {:trigger c[j]} :: 0 <= j < |b| ==>
      c[j] == if p == Some(j) || q == Some(j) then NUL else b[j]
  }

  /** Changes elsewhere keep a string. */
  lemma KeptStr(b: seq<char>, c: seq<char>, i: nat, s: string)
    requires StrAt(b, i, s) && |b| == |c| && Same(b, c, i, i + |s| + 1)
    ensures StrAt(c, i, s)
  {
    SubStr(b, c, i, s, 0, |s|);
    assert s[0..|s|] == s;
  }

  /** An optional string inside [lo, hi), its NUL included. */
  ghost predicate OptIn(b: seq<char>, i: Option<nat>, s: Option<string>, lo: nat, hi: nat) {
    match (i, s)
    case (Some(x), Some(t)) => StrAt(b, x, t) && lo <= x && x + |t| < hi
    case (None, None) => true
    case _ => false
  }

  /** Changes outside [lo, hi) keep it. */
  lemma KeptOpt(b: seq<char>, c: seq<char>, i: Option<nat>, s: Option<string>, lo: nat, hi: nat)
    requires OptIn(b, i, s, lo, hi) && |b| == |c| && lo <= hi <= |b| && Same(b, c, lo, hi)
    ensures OptIn(c, i, s, lo, hi)
  {
    if i.Some? {
      KeptStr(b, c, i.value, s.value);
    }
  }

  /** A position in a string that starts at i. */
  function Shifted(r: Option<nat>, i: nat): Option<nat> {
    if r.None? then None else Some(i + r.value)
  }

  /** b and c differ between lo and hi at most. */
  ghost predicate SameOutside(b: seq<char>, c: seq<char>, lo: nat, hi: nat) {
    |b| == |c| && forall k :: 0 <= k < |b| && !(lo <= k < hi) ==> b[k] == c[k]
  }

  /** strchr. */
  method StrChr(b: array<char>, i: nat, c: char, ghost s: string) returns (r: Option<nat>)
    requires StrAt(b[..], i, s) && c != NUL
    ensures r == Shifted(Find(s, c), i)
  {
    var k := i;
    while b[k] != c && b[k] != NUL
      invariant i <= k <= i + |s| && c !in s[..k - i]
      decreases i + |s| - k
    {
      assert b[k] == s[k - i];
      k := k + 1;
    }
    if b[k] == c {
      assert c == s[k - i];
      return Some(k);
    }
    assert k - i == |s|;
    return None;
  }

  lemma FindLastMore(s: string, k: nat, c: char)
    requires k < |s|
    ensures FindLast(s[..k + 1], c) == if s[k] == c then Some(k) else FindLast(s[..k], c)
  {
    assert s[..k + 1][..k] == s[..k];
  }

  /** strrchr. */
  method StrRChr(b: array<char>, i: nat, c: char, ghost s: string) returns (r: Option<nat>)
    requires StrAt(b[..], i, s) && c != NUL
    ensures r == Shifted(FindLast(s, c), i)
  {
    var k := i;
    r := None;
    while b[k] != NUL
      invariant i <= k <= i + |s|
      invariant r == Shifted(FindLast(s[..k - i], c), i)
      decreases i + |s| - k
    {
      assert b[k] == s[k - i];
      FindLastMore(s, k - i, c);
      if b[k] == c {
        r := Some(k);
      }
      k := k + 1;
    }
    assert k - i == |s| && s[..k - i] == s;
  }

  /** strstr for "://". */
  method StrStr(b: array<char>, i: nat, ghost s: string) returns (r: Option<nat>)
    requires StrAt(b[..], i, s)
    ensures r == Shifted(FindSchemaEnd(s, 0), i)
  {
    var k := i;
    while b[k] != NUL
      invariant i <= k <= i + |s| && FindSchemaEnd(s, k - i) == FindSchemaEnd(s, 0)
      decreases i + |s| - k
    {
      assert forall j :: 0 <= j <= |s| ==> b[i + j] == if j < |s| then s[j] else NUL;
      if b[k] == ':' && b[k + 1] == '/' && b[k + 2] == '/' {
        return Some(k);
      }
      k := k + 1;
    }
    return None;
  }

  method StrLen(b: array<char>, i: nat, ghost s: string) returns (n: nat)
    requires StrAt(b[..], i, s)
    ensures n == |s|
  {
    n := 0;
    while b[i + n] != NUL
      invariant n <= |s|
      decreases |s| - n
    {
      n := n + 1;
    }
  }

  /** memmove by one place to the right. */
  method MoveRight(b: array<char>, from: nat, n: nat)
    requires from + n < b.Length
    modifies b
    ensures forall j {:trigger b[j]} :: 0 <= j < b.Length ==>
              b[j] == if from < j <= from + n then old(b[j - 1]) else old(b[j])
  {
    var k: nat := n;
    while k > 0
      invariant k <= n
      invariant forall j {:trigger b[j]} :: 0 <= j < b.Length ==>
                  b[j] == if from + k < j <= from + n then old(b[j - 1]) else old(b[j])
    {
      b[from + k] := b[from + k - 1];
      k := k - 1;
    }
  }

  /** atoi. */
  method ParseInt(b: array<char>, i: nat, ghost s: string) returns (n: int)
    requires StrAt(b[..], i, s)
    ensures n == Atoi(s)
  {
    var k := i;
    while b[k] != NUL && IsSpace(b[k])
      invariant i <= k <= i + |s| && Atoi(s[k - i..]) == Atoi(s)
      decreases i + |s| - k
    {
      assert b[k] == s[k - i] && s[k - i..][1..] == s[k - i + 1..];
      k := k + 1;
    }
    assert k < i + |s| ==> b[k] == s[k - i] && s[k - i..][1..] == s[k - i + 1..];
    var negative := b[k] == '-';
    if b[k] == '-' || b[k] == '+' {
      k := k + 1;
    }
    var value := Digits(b, i, k, s);
    n := if negative then -value else value;
  }

  method Digits(b: array<char>, i: nat, from: nat, ghost s: string) returns (value: int)
    requires StrAt(b[..], i, s) && i <= from <= i + |s|
    ensures value == Leading(s[from - i..], 0)
  {
    var k: nat := from;
    var sum: nat := 0;
    while IsDigit(b[k])
      invariant from <= k <= i + |s| && Leading(s[k - i..], sum) == Leading(s[from - i..], 0)
      decreases i + |s| - k
    {
      assert b[k] == s[k - i] && s[k - i..][1..] == s[k - i + 1..];
      sum := 10 * sum + (b[k] as nat - '0' as nat);
      k := k + 1;
    }
    assert k < i + |s| ==> b[k] == s[k - i];
    value := sum;
  }

  // ---------------------------------------------------------------- the parser

  /** url_t: the copied text and the places of its components in it; None is NULL. */
  class Parsed {
    const raw: array<char>
    var schema: Option<nat>
    var user: Option<nat>
    var pass: Option<nat>
    var host: Option<nat>
    var port: nat
    var path: Option<nat>
    var query: Option<nat>
    var hash: Option<nat>

    /** The strings the places point at are the components of u. */
    ghost predicate Denotes(u: Url)
      reads this, raw
    {
      && OptAt(raw[..], schema, Some(u.schema)) && OptAt(raw[..], host, Some(u.host))
      && OptAt(raw[..], user, u.user) && OptAt(raw[..], pass, u.pass)
      && OptAt(raw[..], path, Some(u.path)) && OptAt(raw[..], query, u.query) && OptAt(raw[..], hash, u.hash)
      && port == u.port
    }

    /** The zeroed allocation. */
    constructor (size: nat)
      ensures fresh(raw) && raw.Length == size && forall k :: 0 <= k < size ==> raw[k] == NUL
      ensures schema.None? && user.None? && pass.None? && host.None? && path.None? && query.None? && hash.None?
      ensures port == 0
    {
      raw := new char[size](_ => NUL);
      schema, user, pass, host, path, query, hash := None, None, None, None, None, None, None;
      port := 0;
    }

    /** strcpy. */
    method Load(url: string)
      requires |url| < raw.Length && NUL !in url
      modifies raw
      ensures StrAt(raw[..], 0, url)
      ensures forall k :: |url| < k < raw.Length ==> raw[k] == old(raw[k])
    {
      forall k | 0 <= k < |url| {
        raw[k] := url[k];
      }
      raw[|url|] := NUL;
    }

    static lemma ServerCut(b: seq<char>, c: seq<char>, at: nat, s: string, k: nat)
      requires StrAt(b, at, s) && k < |s| && c == b[at + k := NUL]
      ensures StrAt(c, at, s[..k]) && StrAt(c, at + k + 1, s[k + 1..])
      ensures SameOutside(b, c, at, at + |s|)
    {
      SubStr(b, c, at, s, 0, k);
      SubStr(b, c, at, s, k + 1, |s|);
    }

    /** host and port. */
    method CutServer(at: nat, ghost s: string)
      requires StrAt(raw[..], at, s) && port == 0
      modifies raw, `host, `port
      ensures host == Some(at) && StrAt(raw[..], at, ParseServer(s).host)
      ensures port == ParseServer(s).port
      ensures SameOutside(old(raw[..]), raw[..], at, at + |s|)
    {
      host := Some(at);
      ghost var b := raw[..];
      var pos := StrChr(raw, at, ':', s);
      if pos.Some? {
        raw[pos.value] := NUL;
        ghost var k := pos.value - at;
        ServerCut(b, raw[..], at, s, k);
        var n := ParseInt(raw, pos.value + 1, s[k + 1..]);
        port := n % PORTS;
      }
    }

    /** The cuts at the '@' at pos and at the account's first ':'. */
    method CutAccountAt(at: nat, pos: nat, ghost s: string, ghost who: string)
      requires StrAt(raw[..], at, s) && at <= pos < at + |s| && who == s[..pos - at] && pass.None?
      modifies raw, `user, `pass
      ensures CutBy(old(raw[..]), raw[..], Some(pos), Shifted(Find(who, ':'), at))
      ensures user == Some(at)
      ensures var x := Find(who, ':');
      pass == if x.Some? && at + x.value + 1 != pos then Some(at + x.value + 1) else None
    {
      ghost var b := raw[..];
      raw[pos] := NUL;
      user := Some(at);
      SubStr(b, raw[..], at, s, 0, pos - at);
      var colon := StrChr(raw, at, ':', who);
      if colon.Some? {
        raw[colon.value] := NUL;
        pass := if colon.value + 1 == pos then None else Some(colon.value + 1);
      }
    }

    /** ... which leave user, password and server as strings. */
    method CutLoginAt(at: nat, pos: nat, ghost k: nat, ghost s: string)
      requires StrAt(raw[..], at, s) && k < |s| && pos == at + k && pass.None?
      modifies raw, `user, `pass
      ensures OptIn(raw[..], user, Some(ParseAccount(s[..k]).user), at, pos + 1)
      ensures OptIn(raw[..], pass, ParseAccount(s[..k]).pass, at, pos + 1)
      ensures StrAt(raw[..], pos + 1, s[k + 1..])
      ensures SameOutside(old(raw[..]), raw[..], at, at + |s|)
    {
      ghost var b := raw[..];
      ghost var who := s[..k];
      CutAccountAt(at, pos, s, who);
      LoginAt(b, raw[..], at, s, k, Find(who, ':'));
      CutInside(b, raw[..], at, |s|, Some(k), Find(who, ':'));
    }

    /** The account before the last '@'; `rest` is where the server starts. */
    method CutLogin(at: nat, ghost s: string) returns (rest: nat, ghost login: Login)
      requires StrAt(raw[..], at, s) && user.None? && pass.None?
      modifies raw, `user, `pass
      ensures login == ParseLogin(s)
      ensures at <= rest && rest + |login.server| == at + |s| && StrAt(raw[..], rest, login.server)
      ensures OptIn(raw[..], user, login.user, at, rest) && OptIn(raw[..], pass, login.pass, at, rest)
      ensures SameOutside(old(raw[..]), raw[..], at, at + |s|)
    {
      ghost var mark := FindLast(s, '@');
      LoginOf(s, mark);
      var pos := StrRChr(raw, at, '@', s);
      if pos.None? {
        rest, login := at, Login(None, None, s);
      } else {
        ghost var account := ParseAccount(s[..mark.value]);
        login := Login(Some(account.user), account.pass, s[mark.value + 1..]);
        CutLoginAt(at, pos.value, mark.value, s);
        rest := pos.value + 1;
      }
    }

    /** path, query and hash lie in [lo, hi) and are those of `place`. */
    ghost predicate PlaceIn(place: Place, lo: nat, hi: nat)
      reads this, raw
    {
      && OptIn(raw[..], path, Some(place.path), lo, hi)
      && OptIn(raw[..], query, place.query, lo, hi) && OptIn(raw[..], hash, place.hash, lo, hi)
    }

    /** extrac_query_hash: both marks are looked for first, then both cuts are made. */
    method ExtractQueryHash(at: nat, ghost s: string)
      requires StrAt(raw[..], at, s) && query.None? && hash.None?
      modifies raw, `query, `hash
      ensures CutBy(old(raw[..]), raw[..], Shifted(Find(s, '?'), at), Shifted(Find(s, '#'), at))
      ensures query == After(Shifted(Find(s, '?'), at)) && hash == After(Shifted(Find(s, '#'), at))
    {
      var q := StrChr(raw, at, '?', s);
      var h := StrChr(raw, at, '#', s);
      if q.Some? {
        raw[q.value] := NUL;
        query := Some(q.value + 1);
      }
      if h.Some? {
        raw[h.value] := NUL;
        hash := Some(h.value + 1);
      }
    }

    /** ... which leaves the components as strings. */
    method CutPath(at: nat, ghost s: string)
      requires StrAt(raw[..], at, s) && query.None? && hash.None?
      modifies raw, `path, `query, `hash
      ensures PlaceIn(ParsePlace(s), at, at + |s| + 1)
      ensures SameOutside(old(raw[..]), raw[..], at, at + |s|)
    {
      ghost var b, q, h := raw[..], Find(s, '?'), Find(s, '#');
      path := Some(at);
      ExtractQueryHash(at, s);
      PathAt(b, raw[..], at, s, q, h);
      QueryAt(b, raw[..], at, s, q, h);
      HashAt(b, raw[..], at, s, q, h);
      CutInside(b, raw[..], at, |s|, q, h);
    }

    /** No path: "/" is written after the text. */
    method DefaultPath(part: nat, ghost s: string) returns (ghost mid: nat)
      requires StrAt(raw[..], part, s) && part + |s| + 2 < raw.Length && raw[part + |s| + 2] == NUL
      requires query.None? && hash.None?
      modifies raw, `path
      ensures mid == part + |s| + 1 && StrAt(raw[..], part, s)
      ensures PlaceIn(Place("/", None, None), mid, raw.Length)
      ensures SameOutside(old(raw[..]), raw[..], part, raw.Length)
    {
      ghost var b := raw[..];
      var n := StrLen(raw, part, s);
      raw[part + n + 1] := '/';
      path := Some(part + n + 1);
      mid := part + |s| + 1;
      KeptStr(b, raw[..], part, s);
    }

    /** A path: it moves one place to the right, so that a NUL fits between it and the text before. */
    method MovePath(part: nat, pos: nat, ghost s: string) returns (ghost mid: nat)
      requires StrAt(raw[..], part, s) && part <= pos < part + |s| && part + |s| + 1 < raw.Length
      requires raw[part + |s| + 1] == NUL && query.None? && hash.None?
      modifies raw, `path, `query, `hash
      ensures mid == pos + 1 && StrAt(raw[..], part, s[..pos - part])
      ensures PlaceIn(ParsePlace(s[pos - part..]), mid, raw.Length)
      ensures SameOutside(old(raw[..]), raw[..], part, raw.Length)
    {
      ghost var b, k := raw[..], pos - part;
      ghost var tail := s[k..];
      TailStr(b, part, s, k);
      var n := StrLen(raw, pos, tail);
      MoveRight(raw, pos, n);
      raw[pos] := NUL;
      ghost var c := raw[..];
      MovedAt(b, c, part, s, k);
      mid := pos + 1;
      CutPath(pos + 1, tail);
      KeptStr(c, raw[..], part, s[..k]);
    }

    /** The text before the first '/' is cut off from the path; mid is where that part starts. */
    method CutRest(part: nat, ghost s: string) returns (ghost mid: nat, ghost text: string, ghost place: Place)
      requires StrAt(raw[..], part, s) && part + |s| + 2 < raw.Length
      requires raw[part + |s| + 1] == raw[part + |s| + 2] == NUL && query.None? && hash.None?
      modifies raw, `path, `query, `hash
      ensures text == ServerText(s) && place == PlaceOf(s)
      ensures mid == part + |text| + 1 && StrAt(raw[..], part, text) && PlaceIn(place, mid, raw.Length)
      ensures SameOutside(old(raw[..]), raw[..], part, raw.Length)
    {
      var pos := StrChr(raw, part, '/', s);
      if pos.None? {
        text, place := s, Place("/", None, None);
        mid := DefaultPath(part, s);
      } else {
        text, place := s[..pos.value - part], ParsePlace(s[pos.value - part..]);
        mid := MovePath(part, pos.value, s);
      }
    }

    /** ... and the schema before it stays. */
    method CutBehind(part: nat, ghost s: string, ghost front: string)
      returns (ghost mid: nat, ghost text: string, ghost place: Place)
      requires OptIn(raw[..], schema, Some(front), 0, part)
      requires StrAt(raw[..], part, s) && part + |s| + 2 < raw.Length
      requires raw[part + |s| + 1] == raw[part + |s| + 2] == NUL && query.None? && hash.None?
      modifies raw, `path, `query, `hash
      ensures text == ServerText(s) && place == PlaceOf(s)
      ensures mid == part + |text| + 1 && StrAt(raw[..], part, text) && PlaceIn(place, mid, raw.Length)
      ensures OptIn(raw[..], schema, Some(front), 0, part)
    {
      ghost var b := raw[..];
      mid, text, place := CutRest(part, s);
      KeptOpt(b, raw[..], schema, Some(front), 0, part);
    }

    /** host, port, user and pass, out of the text before the path. */
    method CutNames(part: nat, ghost s: string)
      requires StrAt(raw[..], part, s) && user.None? && pass.None? && port == 0
      modifies raw, `user, `pass, `host, `port
      ensures var login := ParseLogin(s); var server := ParseServer(login.server);
        && OptAt(raw[..], user, login.user) && OptAt(raw[..], pass, login.pass)
        && OptAt(raw[..], host, Some(server.host)) && port == server.port
      ensures SameOutside(old(raw[..]), raw[..], part, part + |s|)
    {
      ghost var login;
      var at;
      at, login := CutLogin(part, s);
      ghost var c := raw[..];
      CutServer(at, login.server);
      KeptOpt(c, raw[..], user, login.user, part, at);
      KeptOpt(c, raw[..], pass, login.pass, part, at);
    }

    /** ... and what lies around it stays. */
    method CutServerText(part: nat, ghost s: string, ghost place: Place, ghost mid: nat, ghost front: string)
      requires OptIn(raw[..], schema, Some(front), 0, part)
      requires StrAt(raw[..], part, s) && mid == part + |s| + 1 && PlaceIn(place, mid, raw.Length)
      requires user.None? && pass.None? && port == 0
      modifies raw, `user, `pass, `host, `port
      ensures var login := ParseLogin(s); var server := ParseServer(login.server);
        && OptAt(raw[..], user, login.user) && OptAt(raw[..], pass, login.pass)
        && OptAt(raw[..], host, Some(server.host)) && port == server.port
      ensures PlaceIn(place, mid, raw.Length)
      ensures OptIn(raw[..], schema, Some(front), 0, part)
    {
      ghost var b := raw[..];
      CutNames(part, s);
      KeptPlace(b, raw[..], path, query, hash, place, mid);
      KeptOpt(b, raw[..], schema, Some(front), 0, part);
    }

    /** Everything after "://". */
    method CutAll(part: nat, ghost s: string, ghost u: Url)
      requires StrAt(raw[..], part, s) && part + |s| + 2 < raw.Length
      requires raw[part + |s| + 1] == raw[part + |s| + 2] == NUL
      requires query.None? && hash.None? && user.None? && pass.None? && port == 0
      requires OptIn(raw[..], schema, Some(u.schema), 0, part)
      requires IsRest(u, PlaceOf(s), ParseLogin(ServerText(s)))
      modifies raw, `path, `query, `hash, `user, `pass, `host, `port
      ensures Denotes(u)
    {
      ghost var mid, text, place := CutBehind(part, s, u.schema);
      CutServerText(part, text, place, mid, u.schema);
      Assembled(u, place, ParseLogin(text), mid, part);
    }

    lemma Assembled(u: Url, place: Place, login: Login, mid: nat, part: nat)
      requires IsRest(u, place, login) && PlaceIn(place, mid, raw.Length)
      requires OptIn(raw[..], schema, Some(u.schema), 0, part)
      requires OptAt(raw[..], user, login.user) && OptAt(raw[..], pass, login.pass)
      requires var server := ParseServer(login.server);
        OptAt(raw[..], host, Some(server.host)) && port == server.port
      ensures Denotes(u)
    {
    }
  }

  /** u's components after the schema are those of place and login. */
  ghost predicate IsRest(u: Url, place: Place, login: Login) {
    && u.path == place.path && u.query == place.query && u.hash == place.hash
    && u.user == login.user && u.pass == login.pass
    && u.host == ParseServer(login.server).host && u.port == ParseServer(login.server).port
  }

  /** url_parse: NULL exactly for the texts Parse refuses, and otherwise places whose strings are the
      components; every write stays inside the len + 3 bytes of the copy. */
  method ParseUrl(url: string, len: nat) returns (u: Parsed?)
    requires |url| <= len && NUL !in url
    ensures u == null <==> Parse(url, len).None?
    ensures u != null ==> fresh(u) && u.raw.Length == len + 3 && u.Denotes(Parse(url, len).value)
  {
    if len < 4 {
      return null;
    }
    u := new Parsed(len + 3);
    u.Load(url);
    var pos := StrStr(u.raw, 0, url);
    if pos.None? {
      return null;
    }
    ghost var b := u.raw[..];
    u.raw[pos.value + 1] := NUL;
    u.schema := Some(0);
    var part := pos.value + 3;
    SchemaCut(b, u.raw[..], url, pos.value);
    u.CutAll(part, url[part..], Parse(url, len).value);
  }

  lemma SchemaCut(b: seq<char>, c: seq<char>, url: string, e: nat)
    requires StrAt(b, 0, url) && e + 3 <= |url| && c == b[e + 1 := NUL]
    ensures OptIn(c, Some(0), Some(url[..e + 1]), 0, e + 3) && StrAt(c, e + 3, url[e + 3..])
  {
    SubStr(b, c, 0, url, 0, e + 1);
    SubStr(b, c, 0, url, e + 3, |url|);
    assert url[0..e + 1] == url[..e + 1] && url[e + 3..|url|] == url[e + 3..];
  }

  lemma KeptPlace(b: seq<char>, c: seq<char>, path: Option<nat>, query: Option<nat>, hash: Option<nat>,
                  place: Place, mid: nat)
    requires |b| == |c| && mid <= |b| && Same(b, c, mid, |b|)
    requires OptIn(b, path, Some(place.path), mid, |b|)
    requires OptIn(b, query, place.query, mid, |b|) && OptIn(b, hash, place.hash, mid, |b|)
    ensures OptIn(c, path, Some(place.path), mid, |b|)
    ensures OptIn(c, query, place.query, mid, |b|) && OptIn(c, hash, place.hash, mid, |b|)
  {
    KeptOpt(b, c, path, Some(place.path), mid, |b|);
    KeptOpt(b, c, query, place.query, mid, |b|);
    KeptOpt(b, c, hash, place.hash, mid, |b|);
  }

  /** After the move and the NUL, both halves are strings of their own. */
  lemma MovedAt(b: seq<char>, c: seq<char>, part: nat, s: string, k: nat)
    requires StrAt(b, part, s) && k < |s| && |b| == |c| && part + |s| + 1 < |b| && b[part + |s| + 1] == NUL
    requires forall j {:trigger c[j]} :: 0 <= j < |b| ==>
               c[j] == if j == part + k then NUL else if part + k < j <= part + |s| then b[j - 1] else b[j]
    ensures StrAt(c, part, s[..k]) && StrAt(c, part + k + 1, s[k..])
  {
    var at := part + k + 1;
    forall j {:trigger c[j]} | at <= j < at + |s| - k ensures c[j] == s[k..][j - at] != NUL {
      assert c[j] == b[j - 1] == s[j - 1 - part];
    }
    assert c[part + k] == NUL && c[at + |s| - k] == NUL;
  }

  lemma CutInside(b: seq<char>, c: seq<char>, at: nat, n: nat, p: Option<nat>, q: Option<nat>)
    requires CutBy(b, c, Shifted(p, at), Shifted(q, at)) && (p.Some? ==> p.value < n) && (q.Some? ==> q.value < n)
    ensures SameOutside(b, c, at, at + n)
  {
  }

  function After(i: Option<nat>): Option<nat> {
    if i.None? then None else Some(i.value + 1)
  }

  lemma LoginOf(s: string, at: Option<nat>)
    requires at == FindLast(s, '@')
    ensures ParseLogin(s) ==
      if at.None? then Login(None, None, s)
      else Login(Some(ParseAccount(s[..at.value]).user), ParseAccount(s[..at.value]).pass, s[at.value + 1..])
  {
  }

  /** Both cuts made, path, query and hash are strings of their own. */
  lemma PathAt(b: seq<char>, c: seq<char>, at: nat, s: string, q: Option<nat>, h: Option<nat>)
    requires StrAt(b, at, s) && CutBy(b, c, Shifted(q, at), Shifted(h, at))
    requires (q.Some? ==> q.value < |s|) && (h.Some? ==> h.value < |s|) && (q.Some? ==> q != h)
    ensures StrAt(c, at, CutPlace(s, q, h).path) && |CutPlace(s, q, h).path| <= |s|
  {
    var x := if q.Some? && (h.None? || q.value < h.value) then q.value else if h.Some? then h.value else |s|;
    SubStr(b, c, at, s, 0, x);
    assert CutPlace(s, q, h).path == s[0..x];
  }

  lemma QueryAt(b: seq<char>, c: seq<char>, at: nat, s: string, q: Option<nat>, h: Option<nat>)
    requires StrAt(b, at, s) && CutBy(b, c, Shifted(q, at), Shifted(h, at))
    requires (q.Some? ==> q.value < |s|) && (h.Some? ==> h.value < |s|) && (q.Some? ==> q != h)
    ensures OptIn(c, After(Shifted(q, at)), CutPlace(s, q, h).query, at, at + |s| + 1)
  {
    if q.Some? {
      var y := if h.Some? && q.value < h.value then h.value else |s|;
      SubStr(b, c, at, s, q.value + 1, y);
      assert s[q.value + 1..|s|] == s[q.value + 1..];
    }
  }

  lemma HashAt(b: seq<char>, c: seq<char>, at: nat, s: string, q: Option<nat>, h: Option<nat>)
    requires StrAt(b, at, s) && CutBy(b, c, Shifted(q, at), Shifted(h, at))
    requires (q.Some? ==> q.value < |s|) && (h.Some? ==> h.value < |s|) && (q.Some? ==> q != h)
    ensures OptIn(c, After(Shifted(h, at)), CutPlace(s, q, h).hash, at, at + |s| + 1)
  {
    if h.Some? {
      var y := if q.Some? && h.value < q.value then q.value else |s|;
      SubStr(b, c, at, s, h.value + 1, y);
      assert s[h.value + 1..|s|] == s[h.value + 1..];
    }
  }

  /** One cut gives two strings, two cuts three. */
  lemma TwoParts(b: seq<char>, c: seq<char>, at: nat, s: string, x: nat)
    requires StrAt(b, at, s) && x < |s| && (CutBy(b, c, Some(at + x), None) || CutBy(b, c, None, Some(at + x)))
    ensures StrAt(c, at, s[..x]) && StrAt(c, at + x + 1, s[x + 1..])
  {
    SubStr(b, c, at, s, 0, x);
    SubStr(b, c, at, s, x + 1, |s|);
    assert s[0..x] == s[..x] && s[x + 1..|s|] == s[x + 1..];
  }

  lemma ThreeParts(b: seq<char>, c: seq<char>, at: nat, s: string, x: nat, y: nat)
    requires StrAt(b, at, s) && x < y < |s|
    requires CutBy(b, c, Some(at + x), Some(at + y)) || CutBy(b, c, Some(at + y), Some(at + x))
    ensures StrAt(c, at, s[..x]) && StrAt(c, at + x + 1, s[x + 1..y]) && StrAt(c, at + y + 1, s[y + 1..])
  {
    SubStr(b, c, at, s, 0, x);
    SubStr(b, c, at, s, x + 1, y);
    SubStr(b, c, at, s, y + 1, |s|);
    assert s[0..x] == s[..x] && s[y + 1..|s|] == s[y + 1..];
  }

  /** Both cuts made, user, password and server are strings of their own. */
  lemma LoginAt(b: seq<char>, c: seq<char>, at: nat, s: string, k: nat, colon: Option<nat>)
    requires StrAt(b, at, s) && k < |s| && (colon.Some? ==> colon.value < k)
    requires CutBy(b, c, Some(at + k), Shifted(colon, at))
    ensures OptIn(c, Some(at), Some(CutAccount(s[..k], colon).user), at, at + k + 1)
    ensures OptIn(c, if colon.Some? && colon.value + 1 != k then Some(at + colon.value + 1) else None,
                  CutAccount(s[..k], colon).pass, at, at + k + 1)
    ensures StrAt(c, at + k + 1, s[k + 1..])
  {
    if colon.Some? {
      var x := colon.value;
      ThreeParts(b, c, at, s, x, k);
      assert s[..k][..x] == s[..x] && s[..k][x + 1..] == s[x + 1..k];
    } else {
      TwoParts(b, c, at, s, k);
    }
  }
}
