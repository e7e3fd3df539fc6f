/** URL canonicalization as a whole, and exactly when doing it again changes
    nothing. */
module UrlNorm {
  import opened Options
  import opened Words
  import opened UrlQuery
  import opened UrlAuthority

  // ---- splitting and putting together, as the standard library does ----

  datatype Parts = Parts(scheme: string, netloc: string, path: string, query: string)

  function DropControlsFront(s: string): string {
    if s != "" && s[0] <= ' ' then DropControlsFront(s[1..]) else s
  }

  predicate IsLineBreak(c: char) { c == '\t' || c == '\r' || c == '\n' }

  function DropBreaks(s: string): string {
    if s == "" then "" else (if IsLineBreak(s[0]) then "" else [s[0]]) + DropBreaks(s[1..])
  }

  predicate IsAlpha(c: char) { 'a' <= c <= 'z' || 'A' <= c <= 'Z' }

  predicate IsSchemeChar(c: char) { IsAlpha(c) || '0' <= c <= '9' || c == '+' || c == '-' || c == '.' }

  predicate IsScheme(s: string) {
    s != "" && IsAlpha(s[0]) && forall i :: 0 <= i < |s| ==> IsSchemeChar(s[i])
  }

  predicate EndsAuthority(c: char) { c == '/' || c == '?' || c == '#' }

  function AuthorityEnd(s: string): (i: nat)
    ensures i <= |s| && (i < |s| ==> EndsAuthority(s[i])) && forall j :: 0 <= j < i ==> !EndsAuthority(s[j])
  {
    if s == "" || EndsAuthority(s[0]) then 0 else 1 + AuthorityEnd(s[1..])
  }

  /** The name a bracketed or plain host stands for, before lower-casing. */
  function HostName(netloc: string): string {
    NameIn(HostInfo(netloc))
  }

  function NameIn(info: string): string {
    if '[' in info then
      var inside := info[IndexOf(info, '[') + 1..];
      inside[..IndexOf(inside, ']')]
    else info[..IndexOf(info, ':')]
  }

  /** A host in brackets has its port, if any, right behind them. */
  predicate BracketFirst(info: string) {
    '[' in info ==> info[0] == '[' && var k := IndexOf(info, ']'); k + 1 < |info| ==> info[k + 1] == ':'
  }

  /** Brackets come in pairs and enclose the whole host, up to its port. */
  predicate BracketsOk(lib: Library, netloc: string) {
    && ('[' in netloc <==> ']' in netloc)
    && ('[' in netloc ==>
          var info := HostInfo(netloc);
          && lib.addressOk(HostName(netloc))
          && BracketFirst(info))
  }

  /** Scheme and rest of a URL; no scheme when the front is not one. */
  function SchemeOf(lib: Library, u: string): (string, string) {
    var i := IndexOf(u, ':');
    if i < |u| && IsScheme(u[..i]) then (Lower(lib, u[..i]), u[i + 1..]) else ("", u)
  }

  /** Netloc and what follows it. */
  function NetlocOf(rest: string): (string, string) {
    if "//" <= rest then
      var e := 2 + AuthorityEnd(rest[2..]);
      (rest[2..e], rest[e..])
    else ("", rest)
  }

  /** Path and query; the fragment goes. */
  function PathQuery(rest: string): (string, string) {
    var front := rest[..IndexOf(rest, '#')];
    var q := IndexOf(front, '?');
    (front[..q], if q < |front| then front[q + 1..] else "")
  }

  function UrlSplit(lib: Library, url: string): Option<Parts> {
    var (scheme, rest) := SchemeOf(lib, DropBreaks(DropControlsFront(url)));
    var (netloc, tail) := NetlocOf(rest);
    var (path, query) := PathQuery(tail);
    if BracketsOk(lib, netloc) && (netloc != "" ==> lib.authorityOk(netloc)) then Some(Parts(scheme, netloc, path, query)) else None
  }

  function UrlUnsplit(p: Parts): string {
    var path := if p.path != "" && p.path[0] != '/' then "/" + p.path else p.path;
    p.scheme + ":" + "//" + p.netloc + path + if p.query != "" then "?" + p.query else ""
  }

  /** None stands for the error on anything but an absolute http(s) URL. */
  function NormalizeUrl(lib: Library, url: string): Option<string> {
    match UrlSplit(lib, Strip(url))
    case None => None
    case Some(p) =>
      if p.scheme !in {"http", "https"} || HostName(p.netloc) == "" then None
      else match Canonical(lib, p.scheme, p.netloc)
        case None => None
        case Some(netloc) => Some(UrlUnsplit(p.(netloc := netloc, query := Filtered(lib, p.query))))
  }

  // ---- parts that survive being put together and split again ----

  /** What holds of the parts of a split URL with an authority. */
  ghost predicate Clean(lib: Library, p: Parts) {
    && p.scheme in {"http", "https"} && Lower(lib, p.scheme) == p.scheme
    && p.netloc != "" && (forall c :: EndsAuthority(c) ==> c !in p.netloc)
    && (p.path == "" || p.path[0] == '/') && '#' !in p.path && '?' !in p.path && '#' !in p.query
    && (forall c :: IsLineBreak(c) ==> c !in p.netloc && c !in p.path && c !in p.query)
    && BracketsOk(lib, p.netloc) && lib.authorityOk(p.netloc)
  }

  lemma {:induction false} NoBreaksToDrop(s: string)
    requires forall c :: IsLineBreak(c) ==> c !in s
    ensures DropBreaks(s) == s
  {
    if s != "" {
      assert s[0] in s && forall c :: c in s[1..] ==> c in s;
      NoBreaksToDrop(s[1..]);
    }
  }

  lemma SchemeSplits(lib: Library, scheme: string, rest: string)
    requires scheme in {"http", "https"} && Lower(lib, scheme) == scheme
    ensures SchemeOf(lib, scheme + ":" + rest) == (scheme, rest)
    ensures DropControlsFront(scheme + ":" + rest) == scheme + ":" + rest
  {
    var u := scheme + ":" + rest;
    assert IsScheme(scheme);
    assert forall j :: 0 <= j < |scheme| ==> u[j] == scheme[j] && scheme[j] != ':';
    assert u[|scheme|] == ':' && IndexOf(u, ':') == |scheme| && u[..|scheme|] == scheme && u[|scheme| + 1..] == rest;
    assert u[0] == 'h';
  }

  lemma NetlocSplits(netloc: string, tail: string)
    requires (forall c :: EndsAuthority(c) ==> c !in netloc) && (tail == "" || EndsAuthority(tail[0]))
    ensures NetlocOf("//" + netloc + tail) == (netloc, tail)
  {
    var rest := "//" + netloc + tail;
    assert rest[2..] == netloc + tail && rest[..2] == "//";
    assert forall j :: 0 <= j < |netloc| ==> rest[2..][j] == netloc[j] && netloc[j] in netloc;
    assert tail != "" ==> rest[2..][|netloc|] == tail[0];
    assert AuthorityEnd(rest[2..]) == |netloc|;
    assert rest[2..2 + |netloc|] == netloc && rest[2 + |netloc|..] == tail;
  }

  /** A fragment as written: nothing, or `#` and what follows. */
  predicate IsFragment(s: string) { s == "" || s[0] == '#' }

  lemma FrontOfFragment(front: string, fragment: string)
    requires '#' !in front && IsFragment(fragment)
    ensures (front + fragment)[..IndexOf(front + fragment, '#')] == front
  {
    var rest := front + fragment;
    assert forall j :: 0 <= j < |front| ==> rest[j] == front[j] && front[j] in front;
    assert fragment != "" ==> rest[|front|] == '#';
    assert IndexOf(rest, '#') == |front|;
  }

  lemma PathQuerySplits(path: string, query: string, fragment: string)
    requires '#' !in path && '?' !in path && '#' !in query && IsFragment(fragment)
    ensures PathQuery(path + (if query != "" then "?" + query else "") + fragment) == (path, query)
  {
    hide IndexOf;
    var front := path + if query != "" then "?" + query else "";
    assert '#' !in front;
    FrontOfFragment(front, fragment);
    PathQueryFront(path, query);
    var rest := path + (if query != "" then "?" + query else "") + fragment;
    assert rest == front + fragment;
    assert rest[..IndexOf(rest, '#')] == front;
  }

  lemma PathQueryFront(path: string, query: string)
    requires '?' !in path
    ensures var front := path + if query != "" then "?" + query else "";
            var q := IndexOf(front, '?');
            q == |path| && front[..q] == path && (if query != "" then q < |front| && front[q + 1..] == query else q == |front|)
  {
    var front := path + if query != "" then "?" + query else "";
    assert forall j :: 0 <= j < |path| ==> front[j] == path[j] && path[j] in path;
    assert query != "" ==> front[|path|] == '?';
  }

  /** Putting clean parts together, a fragment or none behind them, and splitting
      again gives the parts back. */
  lemma SplitOfUnsplit(lib: Library, p: Parts, fragment: string)
    requires Clean(lib, p) && IsFragment(fragment) && forall c :: IsLineBreak(c) ==> c !in fragment
    ensures UrlSplit(lib, UrlUnsplit(p) + fragment) == Some(p)
  {
    var tail := p.path + (if p.query != "" then "?" + p.query else "") + fragment;
    var rest := "//" + p.netloc + tail;
    var u := p.scheme + ":" + rest;
    assert UrlUnsplit(p) + fragment == u;
    assert tail == "" || EndsAuthority(tail[0]);
    NetlocSplits(p.netloc, tail);
    PathQuerySplits(p.path, p.query, fragment);
    SchemeSplits(lib, p.scheme, rest);
    NoBreaksInUrl(p, fragment, u);
    NoBreaksToDrop(u);
  }

  lemma NoBreaksInUrl(p: Parts, fragment: string, u: string)
    requires p.scheme in {"http", "https"}
    requires u == p.scheme + ":" + ("//" + p.netloc + (p.path + (if p.query != "" then "?" + p.query else "") + fragment))
    requires forall c :: IsLineBreak(c) ==> c !in p.netloc && c !in p.path && c !in p.query && c !in fragment
    ensures forall c :: IsLineBreak(c) ==> c !in u
  {
    forall c | IsLineBreak(c) ensures c !in u {
      assert c !in p.scheme && c !in ":" && c !in "//" && c !in "?";
    }
  }

  // ---- what splitting gives ----

  lemma {:induction false} DropBreaksDrops(s: string)
    ensures forall c :: c in DropBreaks(s) ==> c in s && !IsLineBreak(c)
    ensures |DropBreaks(s)| <= |s|
  {
    if s != "" { DropBreaksDrops(s[1..]); }
  }

  lemma {:induction false} DropFrontDrops(s: string)
    ensures forall c :: c in DropControlsFront(s) ==> c in s
    ensures |DropControlsFront(s)| <= |s|
  {
    if s != "" && s[0] <= ' ' { DropFrontDrops(s[1..]); }
  }

  function Size(p: Parts): nat {
    |p.scheme| + 3 + |p.netloc| + |p.path| + if p.query != "" then 1 + |p.query| else 0
  }

  lemma TailGives(rest: string)
    ensures var (path, query) := PathQuery(rest);
            && '#' !in path && '?' !in path && '#' !in query
            && (forall c :: c in path || c in query ==> c in rest)
            && |path| + (if query != "" then 1 + |query| else 0) <= |rest|
            && (rest == "" || EndsAuthority(rest[0]) ==> path == "" || path[0] == '/')
  {
    var h := IndexOf(rest, '#');
    var front := rest[..h];
    assert '#' !in front;
    var q := IndexOf(front, '?');
    assert '?' !in front[..q];
  }

  lemma NetlocGives(rest: string)
    ensures var (netloc, tail) := NetlocOf(rest);
            && (forall c :: EndsAuthority(c) ==> c !in netloc)
            && (forall c :: c in netloc || c in tail ==> c in rest)
            && (netloc != "" ==> (tail == "" || EndsAuthority(tail[0])) && 2 + |netloc| + |tail| == |rest|)
  {
    if "//" <= rest {
      var e := 2 + AuthorityEnd(rest[2..]);
      assert forall j :: 0 <= j < |rest[2..e]| ==> rest[2..e][j] == rest[2..][j];
      assert e < |rest| ==> rest[e] == rest[2..][e - 2];
    }
  }

  lemma SplitGives(lib: Library, url: string)
    requires Settles(lib) && UrlSplit(lib, url).Some?
    requires var p := UrlSplit(lib, url).value; p.scheme in {"http", "https"} && p.netloc != ""
    ensures var p := UrlSplit(lib, url).value;
            && Clean(lib, p) && Size(p) <= |url|
            && forall c :: c in p.netloc || c in p.path || c in p.query ==> c in url
  {
    var u := DropBreaks(DropControlsFront(url));
    DropFrontDrops(url);
    DropBreaksDrops(DropControlsFront(url));
    var (scheme, rest) := SchemeOf(lib, u);
    var (netloc, tail) := NetlocOf(rest);
    NetlocGives(rest);
    TailGives(tail);
    var i := IndexOf(u, ':');
    assert scheme != "" by { assert |"http"| == 4 && |"https"| == 5; }
    LowerSettles(lib, u[..i]);
    assert |scheme| + 1 + |rest| == |u| && forall c :: c in rest ==> c in u;
  }

  // ---- canonical parts stay clean ----

  lemma BracketedStays(lib: Library, scheme: string, info: string)
    requires Settles(lib) && CanonicalHostPort(lib, scheme, info).Some? && info != "" && info[0] == '['
    requires var k := IndexOf(info, ']'); k + 1 < |info| ==> info[k + 1] == ':'
    ensures var once := CanonicalHostPort(lib, scheme, info).value;
            var k := IndexOf(info, ']');
            && once != "" && once[0] == '[' && IndexOf(once, ']') == k && k <= |once|
            && (k + 1 < |once| ==> once[k + 1] == ':')
            && once[1..k] == Lower(lib, info[1..k])
            && (']' in once <==> ']' in info)
  {
    var host := SplitHostPort(info).host;
    var k := IndexOf(info, ']');
    BracketedHost(info);
    LowerSettles(lib, host);
    var low := Lower(lib, host);
    assert IsFixed('[') && IsFixed(']');
    assert low[0] == '[' && (k < |info| ==> low[k] == ']') && forall j :: 0 <= j < k ==> low[j] != ']';
    assert low[1..k] == Lower(lib, host[1..k]);
    var tail := BehindHost(lib, scheme, info);
    hide CanonicalHostPort, SplitHostPort, IndexOf, Settles, IsFixed, Lower;
    FirstClosing(low, tail, k);
    assert ']' in info <==> k < |info|;
  }

  /** What a canonical host part has behind its host: nothing, or a port. */
  lemma BehindHost(lib: Library, scheme: string, info: string) returns (tail: string)
    requires CanonicalHostPort(lib, scheme, info).Some? && info != "" && info[0] == '['
    ensures CanonicalHostPort(lib, scheme, info).value == Lower(lib, SplitHostPort(info).host) + tail
    ensures tail != "" ==> tail[0] == ':' && IndexOf(info, ']') < |info|
  {
    var hp := SplitHostPort(info);
    hide Lower;
    match PortOf(lib, scheme, hp)
    case Keep(port) => tail := ":" + port;
    case _ => tail := "";
  }

  lemma FirstClosing(low: string, tail: string, k: nat)
    requires low != "" && 1 <= k <= |low| <= k + 1 && (forall j :: 0 <= j < k ==> low[j] != ']')
    requires k < |low| ==> low[k] == ']'
    requires tail != "" ==> tail[0] == ':' && k < |low|
    ensures var once := low + tail;
            && once != "" && once[0] == low[0] && IndexOf(once, ']') == k && (k + 1 < |once| ==> once[k + 1] == ':')
            && once[1..k] == low[1..k] && (']' in once <==> k < |low|)
  {
    hide IndexOf;
    var once := low + tail;
    assert forall j :: 0 <= j < |low| ==> once[j] == low[j];
  }

  lemma BracketedHost(info: string)
    requires info != "" && info[0] == '['
    ensures var k, host := IndexOf(info, ']'), SplitHostPort(info).host;
            && host != "" && host[0] == '[' && |host| == (if k == |info| then k else k + 1)
            && 1 <= k && host[1..k] == info[1..k]
            && (k < |info| ==> host[k] == ']') && forall j :: 0 <= j < k ==> host[j] != ']'
  {
    var k := IndexOf(info, ']');
    hide IndexOf;
    if k < |info| { assert info[..k + 1][1..k] == info[1..k]; }
  }

  lemma InsideBrackets(info: string)
    requires info != "" && info[0] == '['
    ensures var inside := info[IndexOf(info, '[') + 1..]; inside[..IndexOf(inside, ']')] == info[1..IndexOf(info, ']')]
  {
    var k := IndexOf(info, ']');
    assert IndexOf(info, '[') == 0;
    var inside := info[1..];
    assert forall j :: 0 <= j < |inside| ==> inside[j] == info[j + 1];
    assert IndexOf(inside, ']') == k - 1;
  }

  lemma PlainNameStays(lib: Library, scheme: string, info: string)
    requires Settles(lib) && CanonicalHostPort(lib, scheme, info).Some? && '[' !in info
    ensures var once := CanonicalHostPort(lib, scheme, info).value;
            '[' !in once && NameIn(once) == Lower(lib, NameIn(info))
  {
    var once := CanonicalHostPort(lib, scheme, info).value;
    CanonicalStaysFixed(lib, scheme, info);
    assert IsFixed('[') && '[' !in once;
    var hp := SplitHostPort(info);
    PlainSplit(info);
    LowerSettles(lib, hp.host);
    var low := Lower(lib, hp.host);
    assert IsFixed(':') && ':' !in low;
    assert once[..|low|] == low && (|once| > |low| ==> once[|low|] == ':');
    hide CanonicalHostPort, SplitHostPort, Settles, IndexOf;
    assert forall j :: 0 <= j < |low| ==> once[j] == low[j] && low[j] in low;
    assert IndexOf(once, ':') == |low|;
  }

  lemma PlainSplit(info: string)
    requires '[' !in info
    ensures var hp := SplitHostPort(info);
            && hp.host == info[..IndexOf(info, ':')] == NameIn(info) && ':' !in hp.host
            && (']' in info ==> ']' in hp.host || (hp.colon && ']' in hp.port))
  {
    var k := IndexOf(info, ':');
    assert info != "" ==> info[0] in info;
    hide IndexOf;
    assert ':' !in info[..k];
    PlainHalves(info, k);
  }

  lemma PlainHalves(info: string, k: nat)
    requires k <= |info| && (k < |info| ==> info[k] == ':')
    ensures ']' in info ==> ']' in info[..k] || (k < |info| && ']' in info[k + 1..])
  {
    if ']' in info {
      var j :| 0 <= j < |info| && info[j] == ']';
      if j < k { assert info[..k][j] == ']'; } else { assert info[k + 1..][j - k - 1] == ']'; }
    }
  }

  lemma PlainBracketStays(lib: Library, scheme: string, info: string)
    requires Settles(lib) && CanonicalHostPort(lib, scheme, info).Some? && '[' !in info
    ensures ']' in CanonicalHostPort(lib, scheme, info).value <==> ']' in info
  {
    var once := CanonicalHostPort(lib, scheme, info).value;
    CanonicalStaysFixed(lib, scheme, info);
    var hp := SplitHostPort(info);
    PlainSplit(info);
    LowerSettles(lib, hp.host);
    assert IsFixed(']') && IsDelimiter(']');
    hide SplitHostPort;
    if ']' in info {
      assert ']' in Lower(lib, hp.host) || ']' in hp.port;
      assert ']' in hp.port ==> lib.parseInt(hp.port).None?;
    }
  }

  lemma CanonicalStaysFixed(lib: Library, scheme: string, info: string)
    requires Settles(lib) && CanonicalHostPort(lib, scheme, info).Some?
    ensures forall c :: IsFixed(c) && c in CanonicalHostPort(lib, scheme, info).value ==> c in info
  {
    CanonicalHostPortStays(lib, scheme, info);
  }

  lemma BracketedNameStays(lib: Library, scheme: string, info: string)
    requires Settles(lib) && CanonicalHostPort(lib, scheme, info).Some? && '[' in info && BracketFirst(info)
    ensures var once := CanonicalHostPort(lib, scheme, info).value;
            '[' in once && BracketFirst(once) && (']' in once <==> ']' in info) && NameIn(once) == Lower(lib, NameIn(info))
  {
    var once := CanonicalHostPort(lib, scheme, info).value;
    hide CanonicalHostPort, Settles, IndexOf, Lower;
    BracketedStays(lib, scheme, info);
    NameOfBracketed(info);
    assert once[0] in once;
    NameOfBracketed(once);
  }

  lemma NameOfBracketed(info: string)
    requires info != "" && info[0] == '['
    ensures NameIn(info) == info[1..IndexOf(info, ']')]
  {
    assert info[0] in info;
    InsideBrackets(info);
  }

  /** Name and brackets, for the host part of the authority. */
  lemma HostInfoStays(lib: Library, scheme: string, info: string)
    requires Settles(lib) && CanonicalHostPort(lib, scheme, info).Some? && BracketFirst(info)
    ensures var once := CanonicalHostPort(lib, scheme, info).value;
            && NameIn(once) == Lower(lib, NameIn(info)) && BracketFirst(once)
            && ('[' in once <==> '[' in info) && (']' in once <==> ']' in info)
  {
    hide CanonicalHostPort, Settles, IndexOf, NameIn;
    if '[' in info {
      BracketedNameStays(lib, scheme, info);
    } else {
      PlainNameStays(lib, scheme, info);
      PlainBracketStays(lib, scheme, info);
    }
  }

  lemma HostNameStays(lib: Library, scheme: string, netloc: string)
    requires Settles(lib) && ChecksSettle(lib) && BracketsOk(lib, netloc) && Canonical(lib, scheme, netloc).Some?
    ensures var once := Canonical(lib, scheme, netloc).value;
            HostName(once) == Lower(lib, HostName(netloc)) && BracketsOk(lib, once)
  {
    var info, user := HostInfo(netloc), UserInfo(netloc);
    var host := CanonicalHostPort(lib, scheme, info).value;
    var once := Canonical(lib, scheme, netloc).value;
    assert once == WithUser(user, host);
    NetlocParts(netloc);
    HostHasNoAt(lib, scheme, info);
    UserStays(user, host);
    AddressStays(lib, HostName(netloc));
    hide Canonical, CanonicalHostPort, UserInfo, HostInfo, Settles, ChecksSettle, IsFixed, NameIn, Lower, IndexOf;
    assert BracketFirst(info);
    HostInfoStays(lib, scheme, info);
    NetlocHas(netloc);
    SameBracket(netloc, once, user, info, host, '[');
    SameBracket(netloc, once, user, info, host, ']');
    hide WithUser;
  }

  lemma HostHasNoAt(lib: Library, scheme: string, info: string)
    requires Settles(lib) && CanonicalHostPort(lib, scheme, info).Some? && '@' !in info
    ensures '@' !in CanonicalHostPort(lib, scheme, info).value
  {
    CanonicalStaysFixed(lib, scheme, info);
    assert IsFixed('@');
  }

  lemma AddressStays(lib: Library, s: string)
    requires ChecksSettle(lib)
    ensures lib.addressOk(s) ==> lib.addressOk(Lower(lib, s))
  {
  }

  lemma SameBracket(netloc: string, once: string, user: string, info: string, host: string, c: char)
    requires once == WithUser(user, host) && c != '@' && (c in host <==> c in info)
    requires forall d :: d in netloc ==> d in user || d in info || d == '@'
    requires forall d :: d in info || d in user ==> d in netloc
    ensures c in once <==> c in netloc
  {
    assert c in WithUser(user, host) <==> c in user || c in host;
  }

  lemma NetlocHas(netloc: string)
    ensures forall c :: c in netloc ==> c in UserInfo(netloc) || c in HostInfo(netloc) || c == '@'
  {
    var at := LastAt(netloc);
    forall c | c in netloc ensures c in UserInfo(netloc) || c in HostInfo(netloc) || c == '@' {
      var j :| 0 <= j < |netloc| && netloc[j] == c;
      if j < at { assert UserInfo(netloc)[j] == c; } else if j > at { assert HostInfo(netloc)[j - at - 1] == c; }
    }
  }

  // ---- normalizing once and twice ----

  /** The parts a successful normalization puts together. */
  ghost predicate Stands(lib: Library, p: Parts) {
    && Clean(lib, p) && HostName(p.netloc) != ""
    && Canonical(lib, p.scheme, p.netloc) == Some(p.netloc) && Filtered(lib, p.query) == p.query
  }

  /** What normalization makes of the parts of a URL. */
  function NormalParts(lib: Library, p: Parts): Parts {
    match Canonical(lib, p.scheme, p.netloc)
    case None => p
    case Some(netloc) => p.(netloc := netloc, query := Filtered(lib, p.query))
  }

  lemma NormalPartsStand(lib: Library, p: Parts)
    requires Settles(lib) && ChecksSettle(lib) && Clean(lib, p) && HostName(p.netloc) != ""
    requires Canonical(lib, p.scheme, p.netloc).Some?
    ensures var q := NormalParts(lib, p);
            && Stands(lib, q) && Size(q) <= Size(p)
            && (forall c :: IsFixed(c) && (c in q.netloc || c in q.path || c in q.query) ==> c in p.netloc || c in p.path || c in p.query)
  {
    assert BracketsOk(lib, p.netloc);
    hide Canonical, Filtered, Lower, BracketsOk, Settles, HostName, Clean, Stands, IsFixed;
    CanonicalStays(lib, p.scheme, p.netloc);
    HostNameStays(lib, p.scheme, p.netloc);
    FilterIsIdempotent(lib, p.query);
    FilterIsShorter(lib, p.query);
    FilterAddsNothing(lib, p.query);
    var q := NormalParts(lib, p);
    EmptyHasNoName(q.netloc);
    assert lib.authorityOk(q.netloc) by { AuthorityStays(lib, p); }
    StaysClean(lib, p, q.netloc, q.query);
    AreStanding(lib, q);
  }

  lemma AuthorityStays(lib: Library, p: Parts)
    requires ChecksSettle(lib) && Clean(lib, p) && Canonical(lib, p.scheme, p.netloc).Some?
    ensures lib.authorityOk(Canonical(lib, p.scheme, p.netloc).value)
  {
    hide Canonical;
  }

  lemma AreStanding(lib: Library, p: Parts)
    requires Clean(lib, p) && HostName(p.netloc) != ""
    requires Canonical(lib, p.scheme, p.netloc) == Some(p.netloc) && Filtered(lib, p.query) == p.query
    ensures Stands(lib, p)
  {
  }

  lemma StaysClean(lib: Library, p: Parts, netloc: string, query: string)
    requires Clean(lib, p) && netloc != "" && BracketsOk(lib, netloc) && lib.authorityOk(netloc)
    requires (forall c :: IsFixed(c) && c in netloc ==> c in p.netloc) && (forall c :: c in query ==> c in p.query)
    ensures Clean(lib, p.(netloc := netloc, query := query))
  {
    hide BracketsOk;
    assert forall c :: EndsAuthority(c) || IsLineBreak(c) ==> IsFixed(c);
    hide IsFixed, EndsAuthority, IsLineBreak;
  }

  lemma EmptyHasNoName(netloc: string)
    ensures HostName(netloc) != "" ==> netloc != ""
  {
  }

  lemma NormalizeGives(lib: Library, url: string)
    requires Settles(lib) && ChecksSettle(lib) && NormalizeUrl(lib, url).Some?
    ensures UrlSplit(lib, Strip(url)).Some?
    ensures var q := NormalParts(lib, UrlSplit(lib, Strip(url)).value);
            && NormalizeUrl(lib, url) == Some(UrlUnsplit(q)) && Stands(lib, q) && Size(q) <= |Strip(url)|
            && (forall c :: IsFixed(c) && (c in q.netloc || c in q.path || c in q.query) ==> c in Strip(url))
  {
    hide UrlSplit, Canonical, Filtered, HostName, Settles, ChecksSettle, Clean, Stands;
    var p := UrlSplit(lib, Strip(url)).value;
    EmptyHasNoName(p.netloc);
    SplitGives(lib, Strip(url));
    NormalPartsStand(lib, p);
  }

  /** Read back, a normalized URL has the scheme and the path of the given one,
      no fragment, the authority in canonical form, and of its query exactly the
      segments that are not empty and whose names are not tracking parameters. */
  lemma NormalizedReadsBack(lib: Library, url: string, name: string, value: Option<string>)
    requires Settles(lib) && ChecksSettle(lib) && NormalizeUrl(lib, url).Some?
    requires '=' !in name && Segment(name, value) != ""
    ensures var once := NormalizeUrl(lib, url).value;
      && UrlSplit(lib, Strip(url)).Some? && UrlSplit(lib, once).Some? && '#' !in once
      && var given, kept := UrlSplit(lib, Strip(url)).value, UrlSplit(lib, once).value;
      && kept.scheme == given.scheme && kept.scheme in {"http", "https"}
      && kept.path == given.path
      && Canonical(lib, given.scheme, given.netloc) == Some(kept.netloc)
      && (Segment(name, value) in SplitOn(kept.query, '&')
          <==> Segment(name, value) in SplitOn(given.query, '&') && !Tracks(lib, name))
  {
    hide UrlSplit, Canonical, Filtered, HostName, Settles, ChecksSettle, Tracks, Segment, SplitOn, Size;
    NormalizeGives(lib, url);
    GivenPartsAreClean(lib, url);
    var given := UrlSplit(lib, Strip(url)).value;
    var once := UrlUnsplit(NormalParts(lib, given));
    SplitOfUnsplit(lib, NormalParts(lib, given), "");
    assert once + "" == once;
    UnsplitHasNoHash(lib, NormalParts(lib, given));
    FilteredHasExactly(lib, given.query, name, value);
  }

  /** Only an absolute http or https URL whose port can be read is accepted. */
  lemma NormalizesExactlyWhen(lib: Library, url: string)
    requires Settles(lib)
    ensures NormalizeUrl(lib, url).Some? <==>
      && UrlSplit(lib, Strip(url)).Some?
      && var p := UrlSplit(lib, Strip(url)).value;
      && p.scheme in {"http", "https"} && HostName(p.netloc) != ""
      && var port := SplitHostPort(HostInfo(p.netloc)).port;
      (port == "" || lib.parseInt(port).Some?)
  {
    hide UrlSplit, Canonical, HostName, Settles, SplitHostPort, HostInfo, UrlUnsplit, Filtered;
    if UrlSplit(lib, Strip(url)).Some? {
      var p := UrlSplit(lib, Strip(url)).value;
      CanonicalMeans(lib, p.scheme, p.netloc);
    }
  }

  lemma UnsplitHasNoHash(lib: Library, p: Parts)
    requires Clean(lib, p)
    ensures '#' !in UrlUnsplit(p)
  {
    hide BracketsOk;
    assert EndsAuthority('#');
    assert '#' !in "http" && '#' !in "https" && '#' !in "://";
  }

  lemma UnsplitSize(lib: Library, p: Parts)
    requires Clean(lib, p)
    ensures |UrlUnsplit(p)| == Size(p) && UrlUnsplit(p)[0] == 'h'
  {
    hide Canonical, BracketsOk;
    var u := UrlUnsplit(p);
    assert u[0] == p.scheme[0];
  }

  /** A URL put together from standing parts normalizes to itself, whatever
      fragment is hung on it. */
  lemma StandingIsFixed(lib: Library, p: Parts, fragment: string)
    requires Stands(lib, p) && IsFragment(fragment) && forall c :: IsLineBreak(c) ==> c !in fragment
    requires Strip(UrlUnsplit(p) + fragment) == UrlUnsplit(p) + fragment
    ensures NormalizeUrl(lib, UrlUnsplit(p) + fragment) == Some(UrlUnsplit(p))
  {
    SplitOfUnsplit(lib, p, fragment);
    hide UrlSplit, UrlUnsplit, Canonical, Filtered, HostName, Strip;
    assert p.(netloc := p.netloc, query := p.query) == p;
  }

  lemma NormalizeNeverLengthens(lib: Library, url: string)
    requires Settles(lib) && ChecksSettle(lib) && NormalizeUrl(lib, url).Some?
    ensures |NormalizeUrl(lib, url).value| <= |Strip(url)|
  {
    hide NormalizeUrl, UrlSplit, Canonical, Filtered, HostName, Settles, ChecksSettle, Clean, UrlUnsplit, NormalParts;
    NormalizeGives(lib, url);
    UnsplitSize(lib, NormalParts(lib, UrlSplit(lib, Strip(url)).value));
  }

  lemma EndOfTail(a: string, b: string)
    requires b != ""
    ensures EndsInSpace(a + b) <==> EndsInSpace(b)
  {
    assert (a + b)[|a + b| - 1] == b[|b| - 1];
  }

  lemma StripIsShorter(s: string)
    ensures |Strip(s)| <= |s| && (s != "" && !IsSpace(s[0]) ==> (Strip(s) == s <==> !EndsInSpace(s)))
    ensures s != "" && !IsSpace(s[0]) && EndsInSpace(s) ==> |Strip(s)| < |s|
  {
    LStripIsShorter(s);
    RStripNeverGrows(LStrip(s));
    if s != "" && IsSpace(s[|s| - 1]) { RStripNeverGrows(s[..|s| - 1]); }
  }

  lemma {:induction false} RStripNeverGrows(s: string)
    ensures |RStrip(s)| <= |s|
  {
    if s != "" && IsSpace(s[|s| - 1]) { RStripNeverGrows(s[..|s| - 1]); }
  }

  /** The part the normalized URL ends with. */
  function LastPart(p: Parts): string {
    if p.query != "" then p.query else if p.path != "" then p.path else p.netloc
  }

  lemma EndsWithLastPart(lib: Library, p: Parts)
    requires Clean(lib, p)
    ensures LastPart(p) != "" && (EndsInSpace(UrlUnsplit(p)) <==> EndsInSpace(LastPart(p)))
  {
    hide BracketsOk, EndsInSpace;
    var u, last := UrlUnsplit(p), LastPart(p);
    assert u == u[..|u| - |last|] + last;
    EndOfTail(u[..|u| - |last|], last);
  }

  /** The end of what a URL keeps, read off its own parts: the last query segment
      that is kept, else the path, else the port that is kept, else the host. */
  function LastKept(lib: Library, p: Parts): string {
    var kept := Kept(lib, SplitOn(p.query, '&'));
    if kept != [] then kept[|kept| - 1]
    else if p.path != "" then p.path
    else HostEnd(lib, p.scheme, SplitHostPort(HostInfo(p.netloc)))
  }

  lemma {:induction false} JoinEnd(c: char, pieces: seq<string>)
    requires pieces != [] && pieces[|pieces| - 1] != ""
    ensures Join(c, pieces) != "" && (EndsInSpace(Join(c, pieces)) <==> EndsInSpace(pieces[|pieces| - 1]))
  {
    hide EndsInSpace;
    if |pieces| > 1 {
      var rest := pieces[1..];
      JoinEnd(c, rest);
      assert Join(c, pieces) == (pieces[0] + [c]) + Join(c, rest);
      EndOfTail(pieces[0] + [c], Join(c, rest));
    }
  }

  lemma KeptEnd(lib: Library, query: string)
    ensures var kept := Kept(lib, SplitOn(query, '&'));
      && (Filtered(lib, query) == "" <==> kept == [])
      && (kept != [] ==> kept[|kept| - 1] != "" && (EndsInSpace(Filtered(lib, query)) <==> EndsInSpace(kept[|kept| - 1])))
  {
    var kept := Kept(lib, SplitOn(query, '&'));
    KeptAreKept(lib, SplitOn(query, '&'));
    hide Kept, SplitOn, IsTrackingParam, EndsInSpace;
    if kept != [] {
      assert kept[|kept| - 1] in kept;
      hide Join;
      JoinEnd('&', kept);
    }
  }

  lemma NameNeedsHost(netloc: string)
    requires HostName(netloc) != "" && BracketFirst(HostInfo(netloc))
    ensures SplitHostPort(HostInfo(netloc)).host != ""
  {
    var info := HostInfo(netloc);
    assert info != "" && info[0] == '[' ==> info[0] in info;
  }

  function HostEnd(lib: Library, scheme: string, given: HostPort): string {
    if given.port != "" && lib.parseInt(given.port) != DefaultPort(scheme) then given.port else given.host
  }

  lemma HostPortEnd(lib: Library, scheme: string, info: string)
    requires Settles(lib) && CanonicalHostPort(lib, scheme, info).Some? && SplitHostPort(info).host != ""
    ensures var end, once := HostEnd(lib, scheme, SplitHostPort(info)), CanonicalHostPort(lib, scheme, info).value;
      once != "" && end != "" && (EndsInSpace(once) <==> EndsInSpace(end))
  {
    var given := SplitHostPort(info);
    PortNeedsColon(info);
    SpaceStays(lib, given.host);
    var low := Lower(lib, given.host);
    hide SplitHostPort, Settles, Lower, EndsInSpace;
    if HostEnd(lib, scheme, given) == given.port && given.port != "" { EndOfTail(low + ":", given.port); }
  }

  lemma NetlocEnd(lib: Library, scheme: string, netloc: string)
    requires Settles(lib) && Canonical(lib, scheme, netloc).Some? && SplitHostPort(HostInfo(netloc)).host != ""
    ensures var end, once := HostEnd(lib, scheme, SplitHostPort(HostInfo(netloc))), Canonical(lib, scheme, netloc).value;
      once != "" && end != "" && (EndsInSpace(once) <==> EndsInSpace(end))
  {
    var user, host := UserInfo(netloc), CanonicalHostPort(lib, scheme, HostInfo(netloc)).value;
    hide SplitHostPort, Settles, UserInfo, HostInfo, CanonicalHostPort, HostEnd, EndsInSpace;
    HostPortEnd(lib, scheme, HostInfo(netloc));
    if user != "" { EndOfTail(user + "@", host); }
  }

  lemma SpaceStays(lib: Library, s: string)
    requires Settles(lib) && s != ""
    ensures EndsInSpace(Lower(lib, s)) <==> EndsInSpace(s)
  {
    var c := s[|s| - 1];
    assert IsFixed(lib.lower(c)) <==> IsFixed(c);
    assert IsSpace(c) ==> IsFixed(c);
    assert IsSpace(lib.lower(c)) ==> IsFixed(lib.lower(c));
  }

  /** The parts end as the given ones do. */
  lemma KeptEndStays(lib: Library, p: Parts)
    requires Settles(lib) && Clean(lib, p) && HostName(p.netloc) != "" && Canonical(lib, p.scheme, p.netloc).Some?
    ensures var last, kept := LastPart(NormalParts(lib, p)), LastKept(lib, p);
      last != "" && kept != "" && (EndsInSpace(last) <==> EndsInSpace(kept))
  {
    hide Settles, Canonical, Filtered, Kept, SplitOn, HostName, SplitHostPort, HostInfo, EndsInSpace, Clean, HostEnd;
    assert NormalParts(lib, p) == p.(netloc := Canonical(lib, p.scheme, p.netloc).value, query := Filtered(lib, p.query));
    hide NormalParts;
    HasHost(lib, p);
    KeptEnd(lib, p.query);
    NetlocEnd(lib, p.scheme, p.netloc);
  }

  lemma HasHost(lib: Library, p: Parts)
    requires Clean(lib, p) && HostName(p.netloc) != ""
    ensures SplitHostPort(HostInfo(p.netloc)).host != ""
  {
    hide SplitHostPort, HostInfo;
    NetlocParts(p.netloc);
    assert BracketFirst(HostInfo(p.netloc));
    NameNeedsHost(p.netloc);
  }

  /** Normalizing again changes nothing if and only if what the URL keeps does not
      end in white space: the second pass strips what a dropped fragment or
      parameter had kept inside the URL. */
  lemma NormalizesOnceExactlyWhen(lib: Library, url: string)
    requires Settles(lib) && ChecksSettle(lib) && NormalizeUrl(lib, url).Some?
    ensures UrlSplit(lib, Strip(url)).Some?
    ensures var once := NormalizeUrl(lib, url).value;
            var kept := LastKept(lib, UrlSplit(lib, Strip(url)).value);
            NormalizeUrl(lib, once) == Some(once) <==> !EndsInSpace(kept)
  {
    hide *;
    NormalizeGives(lib, url);
    GivenPartsAreClean(lib, url);
    var given := UrlSplit(lib, Strip(url)).value;
    KeptEndStays(lib, given);
    EndDecides(lib, NormalParts(lib, given));
  }

  lemma EndDecides(lib: Library, p: Parts)
    requires Settles(lib) && ChecksSettle(lib) && Stands(lib, p)
    ensures NormalizeUrl(lib, UrlUnsplit(p)) == Some(UrlUnsplit(p)) <==> !EndsInSpace(LastPart(p))
  {
    hide NormalizeUrl, Canonical, Filtered, HostName, Settles, ChecksSettle, Clean, UrlUnsplit, Strip, LastPart, EndsInSpace;
    var once := UrlUnsplit(p);
    UnsplitSize(lib, p);
    EndsWithLastPart(lib, p);
    StripIsShorter(once);
    if EndsInSpace(once) {
      if NormalizeUrl(lib, once).Some? { NormalizeNeverLengthens(lib, once); }
    } else {
      assert once + "" == once;
      StandingIsFixed(lib, p, "");
    }
  }

  lemma GivenPartsAreClean(lib: Library, url: string)
    requires Settles(lib) && NormalizeUrl(lib, url).Some?
    ensures UrlSplit(lib, Strip(url)).Some?
    ensures var p := UrlSplit(lib, Strip(url)).value;
      Clean(lib, p) && HostName(p.netloc) != "" && Canonical(lib, p.scheme, p.netloc).Some?
      && forall c :: c in p.netloc || c in p.path || c in p.query ==> c in Strip(url)
  {
    hide UrlSplit, Canonical, Filtered, HostName, Settles, Clean;
    var p := UrlSplit(lib, Strip(url)).value;
    EmptyHasNoName(p.netloc);
    SplitGives(lib, Strip(url));
  }

  /** A URL without white space inside is normalized for good in one pass. */
  lemma SpacelessIsIdempotent(lib: Library, url: string)
    requires Settles(lib) && ChecksSettle(lib) && NormalizeUrl(lib, url).Some?
    requires forall c :: IsSpace(c) ==> c !in Strip(url)
    ensures NormalizeUrl(lib, NormalizeUrl(lib, url).value) == NormalizeUrl(lib, url)
  {
    assert forall c :: IsSpace(c) ==> IsFixed(c);
    hide NormalizeUrl, UrlSplit, Canonical, Filtered, HostName, Settles, ChecksSettle, Clean, UrlUnsplit, NormalParts, Strip, IsFixed;
    NormalizeGives(lib, url);
    var p := NormalParts(lib, UrlSplit(lib, Strip(url)).value);
    EndDecides(lib, p);
    var last := LastPart(p);
    if last != "" { assert last[|last| - 1] in last; }
  }

  /** A path that ends in a space before a fragment: two passes, two results. */
  lemma SpaceBeforeFragmentIsLost(lib: Library, p: Parts)
    requires Settles(lib) && ChecksSettle(lib) && Stands(lib, p)
    requires p.query == "" && p.path != "" && p.path[|p.path| - 1] == ' '
    ensures NormalizeUrl(lib, UrlUnsplit(p) + "#x") == Some(UrlUnsplit(p))
    ensures NormalizeUrl(lib, UrlUnsplit(p)) != Some(UrlUnsplit(p))
  {
    hide NormalizeUrl, UrlSplit, Canonical, Filtered, HostName, Settles, ChecksSettle, Clean, UrlUnsplit, Strip;
    UnsplitSize(lib, p);
    EndsWithLastPart(lib, p);
    var u := UrlUnsplit(p);
    StripIsShorter(u);
    StripIsShorter(u + "#x");
    assert (u + "#x")[0] == 'h' && (u + "#x")[|u| + 1] == 'x';
    StandingIsFixed(lib, p, "#x");
    if NormalizeUrl(lib, u).Some? { NormalizeNeverLengthens(lib, u); }
  }

  // ---- a library that meets what is asked ----

  function AsciiLower(c: char): char {
    if 'A' <= c <= 'Z' then c + ('a' - 'A') else c
  }

  function Decimal(s: string): Option<int> {
    if s != "" && forall i :: 0 <= i < |s| ==> '0' <= s[i] <= '9' then Some(DecimalValue(s)) else None
  }

  function DecimalValue(s: string): int {
    if s == "" then 0 else 10 * DecimalValue(s[..|s| - 1]) + (s[|s| - 1] as int - '0' as int)
  }

  function AsciiLibrary(): Library {
    Library(AsciiLower, s => s, Decimal, s => true, s => true)
  }

  /** With ASCII lower-casing, decimal ports and no further checks, all of the
      above holds as it stands. */
  lemma AsciiLibrarySettles()
    ensures Settles(AsciiLibrary()) && ChecksSettle(AsciiLibrary())
  {
    var lib := AsciiLibrary();
    forall s, c | lib.parseInt(s).Some? && IsDelimiter(c) ensures c !in s {
      assert forall i :: 0 <= i < |s| ==> s[i] != c;
    }
  }

  lemma PlainHost(lib: Library)
    requires lib == AsciiLibrary()
    ensures HostInfo("h") == "h" && UserInfo("h") == "" && HostName("h") == "h"
    ensures Canonical(lib, "http", "h") == Some("h")
  {
    OneLetter();
    hide LastAt, IndexOf;
    assert Lower(lib, "h") == "h";
    hide Lower;
    assert SplitHostPort("h") == HostPort("h", false, "");
  }

  lemma OneLetter()
    ensures LastAt("h") == -1 && IndexOf("h", ':') == 1 && IndexOf("h", '[') == 1
  {
    assert "h"[..0] == "" && "h"[1..] == "";
    assert IndexOf("", ':') == 0 && IndexOf("", '[') == 0;
  }

  lemma PlainParts(lib: Library)
    requires lib == AsciiLibrary()
    ensures Lower(lib, "http") == "http"
    ensures Clean(lib, Parts("http", "h", "/a ", ""))
  {
    var path := "/a ";
    assert path[0] == '/' && path[1] == 'a' && path[2] == ' ' && |path| == 3;
    hide HostInfo, HostName, BracketFirst;
    assert BracketsOk(lib, "h");
    hide BracketsOk;
  }

  lemma PlainStands(lib: Library)
    requires lib == AsciiLibrary()
    ensures Stands(lib, Parts("http", "h", "/a ", ""))
  {
    hide Clean, HostName, Canonical, Filtered;
    PlainHost(lib);
    PlainParts(lib);
    NothingKept(lib);
  }

  lemma NothingKept(lib: Library)
    ensures Filtered(lib, "") == ""
  {
    assert [""][..0] == [];
    assert Kept(lib, []) == [];
    assert !Keeps(lib, "");
    assert Kept(lib, [""]) == [];
  }

  /** So with that library the URL `http://h/a #x` gives two results in two
      passes. */
  lemma TwoPassesDiffer()
    ensures var lib, url := AsciiLibrary(), UrlUnsplit(Parts("http", "h", "/a ", ""));
      NormalizeUrl(lib, url + "#x") == Some(url) && NormalizeUrl(lib, url) != Some(url)
  {
    hide *;
    var lib, p := AsciiLibrary(), Parts("http", "h", "/a ", "");
    AsciiLibrarySettles();
    PlainStands(lib);
    assert p.path[|p.path| - 1] == ' ';
    SpaceBeforeFragmentIsLost(lib, p);
  }
}
