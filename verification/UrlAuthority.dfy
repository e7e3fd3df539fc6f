/** The authority of a URL: its canonical form, and that the form is stable. */
module UrlAuthority {
  import opened Options
  import opened Words
  import opened UrlQuery

  // ---- the authority ----

  datatype HostPort = HostPort(host: string, colon: bool, port: string)

  function SplitHostPort(hostport: string): HostPort {
    if hostport != "" && hostport[0] == '[' then
      var k := IndexOf(hostport, ']');
      if k == |hostport| then HostPort(hostport, false, "")
      else if k + 1 < |hostport| && hostport[k + 1] == ':' then HostPort(hostport[..k + 1], true, hostport[k + 2..])
      else HostPort(hostport[..k + 1], false, "")
    else
      var k := IndexOf(hostport, ':');
      if k == |hostport| then HostPort(hostport, false, "")
      else HostPort(hostport[..k], true, hostport[k + 1..])
  }

  /** The split is the only one: a plain host goes up to the first colon, a
      bracketed one up to its first closing bracket, and the port is all that
      follows a colon right behind it. */
  lemma HostPortSplit(hostport: string)
    ensures var hp := SplitHostPort(hostport);
      && (hp.colon ==> hostport == hp.host + ":" + hp.port)
      && (!hp.colon ==> hp.port == "" && hp.host <= hostport)
      && (hostport != "" && hostport[0] == '[' ==>
            && (']' !in hostport <==> ']' !in hp.host)
            && (']' !in hostport ==> hp.host == hostport)
            && (']' in hostport ==> hp.host[|hp.host| - 1] == ']' && ']' !in hp.host[..|hp.host| - 1])
            && (hp.colon <==> |hp.host| < |hostport| && hostport[|hp.host|] == ':'))
      && (hostport == "" || hostport[0] != '[' ==>
            ':' !in hp.host && (hp.colon <==> ':' in hostport) && (!hp.colon ==> hp.host == hostport))
  {
    if hostport != "" && hostport[0] == '[' {
      var k := IndexOf(hostport, ']');
      if k < |hostport| {
        assert hostport == hostport[..k + 1] + hostport[k + 1..];
      }
    }
  }

  function DefaultPort(scheme: string): Option<int> {
    if scheme == "http" then Some(80) else if scheme == "https" then Some(443) else None
  }

  /** The port to write out: none when absent, empty or the scheme's own. */
  datatype Port = NoPort | Keep(text: string) | Invalid

  function PortOf(lib: Library, scheme: string, hp: HostPort): Port {
    if !hp.colon || hp.port == "" then NoPort
    else
      var number := lib.parseInt(hp.port);
      if number.None? then Invalid else if DefaultPort(scheme) == number then NoPort else Keep(hp.port)
  }

  function CanonicalHostPort(lib: Library, scheme: string, hostport: string): Option<string> {
    var hp := SplitHostPort(hostport);
    match PortOf(lib, scheme, hp)
    case Invalid => None
    case NoPort => Some(Lower(lib, hp.host))
    case Keep(port) => Some(Lower(lib, hp.host) + ":" + port)
  }

  /** Last position of `@`, or -1. */
  function LastAt(s: string): (i: int)
    ensures -1 <= i < |s| && (i >= 0 ==> s[i] == '@') && forall j :: i < j < |s| ==> s[j] != '@'
  {
    if s == "" then -1 else if s[|s| - 1] == '@' then |s| - 1 else LastAt(s[..|s| - 1])
  }

  function UserInfo(netloc: string): string {
    var at := LastAt(netloc);
    if at < 0 then "" else netloc[..at]
  }

  function HostInfo(netloc: string): string {
    netloc[LastAt(netloc) + 1..]
  }

  function WithUser(user: string, hostport: string): string {
    if user != "" then user + "@" + hostport else hostport
  }

  function Canonical(lib: Library, scheme: string, netloc: string): Option<string> {
    match CanonicalHostPort(lib, scheme, HostInfo(netloc))
    case None => None
    case Some(hostport) => Some(WithUser(UserInfo(netloc), hostport))
  }

  method CanonicalNetloc(lib: Library, scheme: string, netloc: string) returns (canonical: Option<string>)
    ensures canonical == Canonical(lib, scheme, netloc)
  {
    var userinfo, hostport := UserInfo(netloc), HostInfo(netloc);
    var split := SplitHostPort(hostport);
    var host, colon, port := Lower(lib, split.host), split.colon, split.port;
    if colon && port == "" {
      colon := false;
    }
    if colon && port != "" {
      var number := lib.parseInt(port);
      if number.None? {
        return None;
      }
      if DefaultPort(scheme) == number {
        colon, port := false, "";
      }
    }
    hostport := if colon then host + ":" + port else host;
    canonical := Some(if userinfo != "" then userinfo + "@" + hostport else hostport);
  }

  // ---- what is asked of the library ----

  predicate IsDelimiter(c: char) {
    c == ':' || c == '@' || c == '[' || c == ']' || c == '/' || c == '?' || c == '#'
  }

  predicate IsFixed(c: char) { IsDelimiter(c) || IsSpace(c) }

  /** Lower-casing settles at once and leaves delimiters and space alone, in
      both directions; what parses as a number holds no delimiter. */
  ghost predicate Settles(lib: Library) {
    && (forall c :: lib.lower(lib.lower(c)) == lib.lower(c) && (IsFixed(c) || IsFixed(lib.lower(c)) ==> lib.lower(c) == c))
    && (forall s, c :: lib.parseInt(s).Some? && IsDelimiter(c) ==> c !in s)
  }

  /** The checks on an authority still pass once it is in canonical form. */
  ghost predicate ChecksSettle(lib: Library) {
    && (forall s :: lib.addressOk(s) ==> lib.addressOk(Lower(lib, s)))
    && (forall scheme, n :: lib.authorityOk(n) && Canonical(lib, scheme, n).Some? ==> lib.authorityOk(Canonical(lib, scheme, n).value))
  }

  lemma LowerSettles(lib: Library, s: string)
    requires Settles(lib)
    ensures Lower(lib, Lower(lib, s)) == Lower(lib, s)
    ensures forall c :: IsFixed(c) ==> (c in Lower(lib, s) <==> c in s)
    ensures forall i, c :: 0 <= i < |s| && IsFixed(c) ==> (Lower(lib, s)[i] == c <==> s[i] == c)
  {
    forall i, c | 0 <= i < |s| && IsFixed(c) ensures Lower(lib, s)[i] == c <==> s[i] == c {}
    forall c | IsFixed(c) ensures c in Lower(lib, s) <==> c in s {
      if c in s {
        var i :| 0 <= i < |s| && s[i] == c;
        assert Lower(lib, s)[i] == c;
      }
    }
  }

  // ---- a canonical authority stays ----

  /** A host alone: plain and without a colon, or in brackets, the closing one
      missing or last. */
  predicate AloneAsHost(host: string) {
    if host != "" && host[0] == '[' then forall j :: 0 <= j < |host| - 1 ==> host[j] != ']' else ':' !in host
  }

  lemma HostIsAlone(hostport: string)
    ensures AloneAsHost(SplitHostPort(hostport).host)
  {}

  lemma AloneSplits(host: string)
    requires AloneAsHost(host)
    ensures SplitHostPort(host) == HostPort(host, false, "")
  {
    if host != "" && host[0] == '[' && IndexOf(host, ']') < |host| {
      assert host[..|host|] == host;
    }
  }

  lemma HostStays(lib: Library, hostport: string)
    requires Settles(lib)
    ensures var hp := SplitHostPort(hostport);
            SplitHostPort(Lower(lib, hp.host)) == HostPort(Lower(lib, hp.host), false, "")
  {
    hide SplitHostPort, Settles;
    var host := SplitHostPort(hostport).host;
    HostIsAlone(hostport);
    LowerSettles(lib, host);
    assert IsFixed('[') && IsFixed(']') && IsFixed(':');
    assert AloneAsHost(Lower(lib, host)) by { hide Lower, IsFixed; }
    AloneSplits(Lower(lib, host));
  }

  lemma HostPortStays(lib: Library, hostport: string)
    requires Settles(lib) && SplitHostPort(hostport).colon
    ensures var hp := SplitHostPort(hostport);
            SplitHostPort(Lower(lib, hp.host) + ":" + hp.port) == HostPort(Lower(lib, hp.host), true, hp.port)
  {
    var hp := SplitHostPort(hostport);
    LowerSettles(lib, hp.host);
    var low := Lower(lib, hp.host);
    assert IsFixed('[') && IsFixed(']') && IsFixed(':');
    hide Settles, Lower, IndexOf;
    if hostport[0] == '[' {
      assert hp.host == hostport[..IndexOf(hostport, ']') + 1];
      assert low[0] == '[' && low[|low| - 1] == ']' && forall j :: 0 <= j < |low| - 1 ==> low[j] != ']';
      hide IsFixed;
      BracketedSplits(low, hp.port);
    } else {
      assert ':' !in hp.host && ':' !in low && (low == "" || low[0] != '[');
      hide IsFixed;
      PlainSplits(low, hp.port);
    }
  }

  lemma BracketedSplits(host: string, port: string)
    requires host != "" && host[0] == '[' && host[|host| - 1] == ']' && forall j :: 0 <= j < |host| - 1 ==> host[j] != ']'
    ensures SplitHostPort(host + ":" + port) == HostPort(host, true, port)
  {
    hide IndexOf;
    var again := host + ":" + port;
    assert forall j :: 0 <= j < |host| ==> again[j] == host[j];
    assert IndexOf(again, ']') == |host| - 1;
    assert again[..|host|] == host && again[|host|] == ':' && again[|host| + 1..] == port;
  }

  lemma PlainSplits(host: string, port: string)
    requires ':' !in host && (host == "" || host[0] != '[')
    ensures SplitHostPort(host + ":" + port) == HostPort(host, true, port)
  {
    hide IndexOf;
    var again := host + ":" + port;
    assert forall j :: 0 <= j < |host| ==> again[j] == host[j] && host[j] in host;
    assert again[|host|] == ':' && IndexOf(again, ':') == |host|;
    assert again[..|host|] == host && again[|host| + 1..] == port;
  }

  lemma HostHasOnly(hostport: string)
    ensures var hp := SplitHostPort(hostport);
            && hp.host <= hostport && |hp.host| + (if hp.colon then 1 + |hp.port| else 0) <= |hostport|
            && (forall c :: c in hp.host || c in hp.port || (hp.colon && c == ':') ==> c in hostport)
  {
  }

  lemma CanonicalHostPortStays(lib: Library, scheme: string, hostport: string)
    requires Settles(lib) && CanonicalHostPort(lib, scheme, hostport).Some?
    ensures var once := CanonicalHostPort(lib, scheme, hostport).value;
            && CanonicalHostPort(lib, scheme, once) == Some(once) && |once| <= |hostport|
            && forall c :: IsFixed(c) && c in once ==> c in hostport
  {
    var hp := SplitHostPort(hostport);
    HostHasOnly(hostport);
    HostStays(lib, hostport);
    LowerSettles(lib, hp.host);
    if hp.colon { HostPortStays(lib, hostport); }
    hide SplitHostPort, Settles;
    var once := CanonicalHostPort(lib, scheme, hostport).value;
    forall c | IsFixed(c) && c in once ensures c in hostport {
      assert c in Lower(lib, hp.host) || (hp.colon && (c == ':' || c in hp.port));
    }
  }

  lemma UserStays(user: string, hostport: string)
    requires '@' !in hostport
    ensures UserInfo(WithUser(user, hostport)) == user && HostInfo(WithUser(user, hostport)) == hostport
  {
    var n := WithUser(user, hostport);
    if user != "" {
      assert n[|user|] == '@' && forall j :: |user| < j < |n| ==> n[j] == hostport[j - |user| - 1];
      assert LastAt(n) == |user|;
    } else {
      assert LastAt(n) == -1;
    }
  }

  /** User information and host are the two sides of the last `@`. */
  lemma NetlocJoins(netloc: string)
    ensures '@' !in HostInfo(netloc)
    ensures netloc == (if '@' in netloc then UserInfo(netloc) + "@" else "") + HostInfo(netloc)
  {}

  lemma NetlocParts(netloc: string)
    ensures '@' !in HostInfo(netloc)
    ensures |HostInfo(netloc)| + |UserInfo(netloc)| + (if UserInfo(netloc) != "" then 1 else 0) <= |netloc|
    ensures forall c :: c in HostInfo(netloc) || c in UserInfo(netloc) || (UserInfo(netloc) != "" && c == '@') ==> c in netloc
  {
    var at := LastAt(netloc);
    assert forall i :: 0 <= i < |HostInfo(netloc)| ==> HostInfo(netloc)[i] == netloc[at + 1 + i];
  }

  /** A canonical authority is its own canonical form, no longer than the given
      one, and has no delimiter or space that one did not have. */
  lemma CanonicalStays(lib: Library, scheme: string, netloc: string)
    requires Settles(lib) && Canonical(lib, scheme, netloc).Some?
    ensures var once := Canonical(lib, scheme, netloc).value;
            && Canonical(lib, scheme, once) == Some(once) && |once| <= |netloc|
            && forall c :: IsFixed(c) && c in once ==> c in netloc
  {
    CanonicalHostPortStays(lib, scheme, HostInfo(netloc));
    NetlocParts(netloc);
    UserStays(UserInfo(netloc), CanonicalHostPort(lib, scheme, HostInfo(netloc)).value);
  }

  /** What the canonical form says: the user as given, the host in lower case,
      and the port as written exactly when there is one that is not the
      scheme's own. Only an unreadable port is refused. */
  lemma CanonicalMeans(lib: Library, scheme: string, netloc: string)
    requires Settles(lib)
    ensures var given := SplitHostPort(HostInfo(netloc));
            var canonical := Canonical(lib, scheme, netloc);
            && (canonical.None? <==> given.port != "" && lib.parseInt(given.port).None?)
            && (canonical.Some? ==>
                  var own := (scheme == "http" && lib.parseInt(given.port) == Some(80))
                             || (scheme == "https" && lib.parseInt(given.port) == Some(443));
                  var keeps := given.port != "" && !own;
                  && UserInfo(canonical.value) == UserInfo(netloc)
                  && SplitHostPort(HostInfo(canonical.value))
                     == HostPort(Lower(lib, given.host), keeps, if keeps then given.port else ""))
  {
    var info := HostInfo(netloc);
    var given := SplitHostPort(info);
    PortNeedsColon(info);
    if Canonical(lib, scheme, netloc).Some? {
      CanonicalHostPortStays(lib, scheme, info);
      NetlocParts(netloc);
      assert IsFixed('@');
      UserStays(UserInfo(netloc), CanonicalHostPort(lib, scheme, info).value);
      HostStays(lib, info);
      if given.colon { HostPortStays(lib, info); }
      hide SplitHostPort, Settles, UserInfo, HostInfo, Lower;
    }
  }

  lemma PortNeedsColon(hostport: string)
    ensures SplitHostPort(hostport).port != "" ==> SplitHostPort(hostport).colon
  {
  }
}
