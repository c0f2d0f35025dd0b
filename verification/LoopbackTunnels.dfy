/** Loopback tunnels of the host browser: a typed loopback address is rewritten to a local
    tunnel port, and the address bar maps it back. Only http and https URLs get this far. */
module LoopbackTunnels {
  import opened Wrappers

  datatype Scheme = Http | Https

  /** A parsed URL. As the parser leaves it, `port` is never the scheme's default. */
  datatype Url = Url(scheme: Scheme, host: string, port: Option<nat>, rest: string)

  function DefaultPort(s: Scheme): nat { if s.Http? then 80 else 443 }

  predicate Parsed(url: Url) { url.port != Some(DefaultPort(url.scheme)) }

  function SetPort(url: Url, port: nat): Url {
    url.(port := if port == DefaultPort(url.scheme) then None else Some(port))
  }

  /** A bare IPv6 address is not a host the parser accepts; the URL then stays as it is. */
  function SetHost(url: Url, host: string): Url { if ':' in host then url else url.(host := host) }

  // ---- Hosts ----

  predicate Bracket(c: char) { c == '[' || c == ']' }

  function TrimBrackets(host: string): string {
    if host == "" then ""
    else if Bracket(host[0]) then TrimBrackets(host[1..])
    else if Bracket(host[|host| - 1]) then TrimBrackets(host[..|host| - 1])
    else host
  }

  function LowerChar(c: char): char { if 'A' <= c <= 'Z' then (c as int + 32) as char else c }

  function Lower(s: string): string { seq(|s|, i requires 0 <= i < |s| => LowerChar(s[i])) }

  const LOCALHOST := "localhost"
  const IPV4_LOOPBACK := "127.0.0.1"
  const IPV6_LOOPBACK := "::1"
  const ANY_ADDRESS := "0.0.0.0"

  predicate IsLoopbackHost(host: string) {
    var bare := TrimBrackets(host);
    Lower(bare) == LOCALHOST || bare == IPV4_LOOPBACK || bare == IPV6_LOOPBACK || bare == ANY_ADDRESS
  }

  function NormalizeLoopback(host: string): string {
    var bare := TrimBrackets(host);
    if Lower(bare) == LOCALHOST || bare == ANY_ADDRESS then IPV4_LOOPBACK else bare
  }

  // ---- Rewriting and showing ----

  function RemotePort(url: Url): nat { if url.port.Some? then url.port.value else DefaultPort(url.scheme) }

  function Retarget(url: Url, localPort: nat): Url { SetPort(SetHost(url, IPV4_LOOPBACK), localPort) }

  function DisplayUrl(display: map<nat, (string, nat)>, url: Url): Url {
    if url.port.None? || !IsLoopbackHost(url.host) || url.port.value !in display then url
    else
      var target := display[url.port.value];
      SetPort(SetHost(url, target.0), target.1)
  }

  // ---- The tables ----

  datatype Tunnel = Tunnel(host: string, port: nat, localPort: nat)

  /** `starting` holds the tunnels between their start and their entry into the tables: other
      navigations run in between. */
  datatype Tables = Tables(
    sessions: map<string, seq<Tunnel>>,
    starting: map<nat, (string, Tunnel)>,
    display: map<nat, (string, nat)>)

  /** A tunnel that exists: in a session's list, or still starting. */
  datatype Place = Listed(session: string, index: nat) | Begun(call: nat)

  predicate Lives(t: Tables, p: Place) {
    match p
    case Listed(s, i) => s in t.sessions && i < |t.sessions[s]|
    case Begun(c) => c in t.starting
  }

  function At(t: Tables, p: Place): Tunnel
    requires Lives(t, p)
  {
    match p
    case Listed(s, i) => t.sessions[s][i]
    case Begun(c) => t.starting[c].1
  }

  ghost predicate PortFree(t: Tables, port: nat) { forall p | Lives(t, p) :: At(t, p).localPort != port }

  function Find(tunnels: seq<Tunnel>, host: string, port: nat): Option<Tunnel> {
    if tunnels == [] then None
    else if tunnels[0].host == host && tunnels[0].port == port then Some(tunnels[0])
    else Find(tunnels[1..], host, port)
  }

  datatype Act =
    | Ensure(session: string)
    | Shutdown(session: string)
    | Begin(call: nat, session: string, url: Url, localPort: nat)
    | Finish(call: nat)

  /** A navigation reuses a tunnel of its session or starts one on the port the system gives;
      when it is back, the tunnel goes into the session's list and the display map. A session
      that is gone by then gets an error and the tunnel is dropped. Nothing ever leaves the
      display map. */
  ghost function Perform(t: Tables, a: Act): Tables {
    match a
    case Ensure(s) => if s in t.sessions then t else t.(sessions := t.sessions[s := []])
    case Shutdown(s) => t.(sessions := t.sessions - {s})
    case Begin(c, s, url, local) =>
      if s in t.sessions && IsLoopbackHost(url.host) && c !in t.starting && PortFree(t, local)
         && Find(t.sessions[s], NormalizeLoopback(url.host), RemotePort(url)).None?
      then t.(starting := t.starting[c := (s, Tunnel(NormalizeLoopback(url.host), RemotePort(url), local))])
      else t
    case Finish(c) =>
      if c !in t.starting then t
      else
        var (s, tunnel) := t.starting[c];
        var left := t.(starting := t.starting - {c});
        if s in t.sessions then Entered(left, s, tunnel) else left
  }

  function Entered(t: Tables, s: string, tunnel: Tunnel): Tables
    requires s in t.sessions
  {
    t.(sessions := t.sessions[s := t.sessions[s] + [tunnel]], display := t.display[tunnel.localPort := (tunnel.host, tunnel.port)])
  }

  ghost function PerformAll(t: Tables, acts: seq<Act>): Tables
    decreases |acts|
  {
    if acts == [] then t else PerformAll(Perform(t, acts[0]), acts[1..])
  }

  ghost predicate OwnPorts(t: Tables) {
    forall p, q | Lives(t, p) && Lives(t, q) && p != q :: At(t, p).localPort != At(t, q).localPort
  }

  /** The display map sends the port of each listed tunnel to that tunnel's target. */
  predicate Shown(t: Tables, tunnel: Tunnel) {
    tunnel.localPort in t.display && t.display[tunnel.localPort] == (tunnel.host, tunnel.port)
  }

  ghost predicate Consistent(t: Tables) {
    OwnPorts(t) && forall s: string, i: nat | Lives(t, Listed(s, i)) :: Shown(t, t.sessions[s][i])
  }

  lemma FewerTunnels(t: Tables, u: Tables)
    requires Consistent(t) && u.display == t.display
    requires forall p | Lives(u, p) :: Lives(t, p) && At(u, p) == At(t, p)
    ensures Consistent(u)
  {
    forall s: string, i: nat | Lives(u, Listed(s, i)) ensures Shown(u, u.sessions[s][i]) {
      assert Lives(t, Listed(s, i)) && At(u, Listed(s, i)) == At(t, Listed(s, i));
    }
  }

  lemma BeginIsConsistent(t: Tables, c: nat, s: string, tunnel: Tunnel)
    requires Consistent(t) && c !in t.starting && PortFree(t, tunnel.localPort)
    ensures Consistent(t.(starting := t.starting[c := (s, tunnel)]))
  {
    var u := t.(starting := t.starting[c := (s, tunnel)]);
    assert forall p | Lives(u, p) && p != Begun(c) :: Lives(t, p) && At(u, p) == At(t, p);
    forall s: string, i: nat | Lives(u, Listed(s, i)) ensures Shown(u, u.sessions[s][i]) {
      assert Lives(t, Listed(s, i));
    }
  }

  lemma FinishIsConsistent(t: Tables, c: nat)
    requires Consistent(t) && c in t.starting && t.starting[c].0 in t.sessions
    ensures Consistent(Entered(t.(starting := t.starting - {c}), t.starting[c].0, t.starting[c].1))
  {
    var (s, tunnel) := t.starting[c];
    var u := Entered(t.(starting := t.starting - {c}), s, tunnel);
    var entered := Listed(s, |t.sessions[s]|);
    assert At(u, entered) == At(t, Begun(c)) == tunnel;
    assert forall p | Lives(u, p) && p != entered :: Lives(t, p) && At(u, p) == At(t, p) && p != Begun(c);
    forall r: string, i: nat | Lives(u, Listed(r, i)) ensures Shown(u, u.sessions[r][i]) {
      if Listed(r, i) != entered {
        assert Lives(t, Listed(r, i)) && At(t, Listed(r, i)).localPort != tunnel.localPort;
      }
    }
  }

  lemma PerformIsConsistent(t: Tables, a: Act)
    requires Consistent(t)
    ensures Consistent(Perform(t, a))
  {
    match a {
      case Begin(c, s, url, local) =>
        if Perform(t, a) != t { BeginIsConsistent(t, c, s, Tunnel(NormalizeLoopback(url.host), RemotePort(url), local)); }
      case Finish(c) =>
        if c in t.starting && t.starting[c].0 in t.sessions { FinishIsConsistent(t, c); }
        else { FewerTunnels(t, Perform(t, a)); }
      case _ => FewerTunnels(t, Perform(t, a));
    }
  }

  /** Over any interleaving of navigations, sessions coming and sessions going, the display map
      agrees with every listed tunnel, although its stale entries are never removed. */
  lemma {:induction false} DisplayAgrees(t: Tables, acts: seq<Act>)
    requires Consistent(t)
    ensures Consistent(PerformAll(t, acts))
    decreases |acts|
  {
    if acts != [] {
      PerformIsConsistent(t, acts[0]);
      DisplayAgrees(Perform(t, acts[0]), acts[1..]);
    }
  }

  // ---- The address bar shows what was typed ----

  lemma LoopbackIsLoopback()
    ensures IsLoopbackHost(IPV4_LOOPBACK) && ':' !in IPV4_LOOPBACK && ':' in IPV6_LOOPBACK
  {
    assert TrimBrackets(IPV4_LOOPBACK) == IPV4_LOOPBACK;
    assert IPV6_LOOPBACK[0] == ':';
  }

  /** A typed loopback URL, rewritten to a tunnel and shown again, is the typed URL with its
      host normalised, exactly when that host is the IPv4 one and the local port can be told
      from the scheme's default, or need not be. */
  lemma ShownAsTyped(t: Tables, url: Url, tunnel: Tunnel)
    requires Parsed(url) && IsLoopbackHost(url.host) && Shown(t, tunnel)
    requires tunnel.host == NormalizeLoopback(url.host) && tunnel.port == RemotePort(url)
    ensures DisplayUrl(t.display, Retarget(url, tunnel.localPort)) == url.(host := NormalizeLoopback(url.host)) <==>
            NormalizeLoopback(url.host) == IPV4_LOOPBACK
            && (tunnel.localPort != DefaultPort(url.scheme) || url.port.None?)
  {
    LoopbackIsLoopback();
    assert NormalizeLoopback(url.host) == IPV4_LOOPBACK || NormalizeLoopback(url.host) == IPV6_LOOPBACK;
  }

  /** In every reachable state: a listed tunnel shows the URL it was opened for. */
  lemma EveryTunnelShowsItsUrl(t: Tables, acts: seq<Act>, s: string, i: nat, url: Url)
    requires Consistent(t) && Lives(PerformAll(t, acts), Listed(s, i))
    requires var tunnel := PerformAll(t, acts).sessions[s][i];
             tunnel.port == RemotePort(url) && tunnel.host == NormalizeLoopback(url.host) == IPV4_LOOPBACK
             && tunnel.localPort != DefaultPort(url.scheme)
    requires Parsed(url) && IsLoopbackHost(url.host)
    ensures var end := PerformAll(t, acts);
            DisplayUrl(end.display, Retarget(url, end.sessions[s][i].localPort)) == url.(host := IPV4_LOOPBACK)
  {
    DisplayAgrees(t, acts);
    ShownAsTyped(PerformAll(t, acts), url, PerformAll(t, acts).sessions[s][i]);
  }

  // ---- Which tunnel serves a URL ----

  /** A tunnel to that host and port leads where the typed URL points. */
  predicate Serves(url: Url, host: string, port: nat) {
    && host == NormalizeLoopback(url.host)
    && port == match url.port case Some(p) => p case None => (match url.scheme case Http => 80 case Https => 443)
  }

  /** The URL that is loaded goes through that tunnel, and is otherwise the typed one. */
  predicate Reuses(url: Url, loaded: Url, tunnel: Tunnel) {
    && Serves(url, tunnel.host, tunnel.port)
    && loaded.host == "127.0.0.1" && loaded.scheme == url.scheme && loaded.rest == url.rest
    && RemotePort(loaded) == tunnel.localPort && loaded == Retarget(url, tunnel.localPort)
  }

  lemma {:induction false} FoundServes(tunnels: seq<Tunnel>, host: string, port: nat)
    ensures var found := Find(tunnels, host, port);
            && (found.Some? ==> exists i: nat :: i < |tunnels| && Some(tunnels[i]) == found && tunnels[i].host == host && tunnels[i].port == port)
            && (found.None? ==> forall i: nat | i < |tunnels| :: !(tunnels[i].host == host && tunnels[i].port == port))
    decreases |tunnels|
  {
    if tunnels != [] {
      var rest := tunnels[1..];
      FoundServes(rest, host, port);
      if tunnels[0].host == host && tunnels[0].port == port {
        assert Some(tunnels[0]) == Find(tunnels, host, port);
      } else {
        assert forall i: nat | i < |rest| :: rest[i] == tunnels[i + 1];
        assert forall i: nat | 0 < i < |tunnels| :: tunnels[i] == rest[i - 1];
      }
    }
  }

  /** A navigation that reuses a tunnel of a consistent state shows what was typed, under the
      same condition as one that has started it. */
  lemma ReusedIsShownAsTyped(t: Tables, session: string, i: nat, url: Url, loaded: Url)
    requires Consistent(t) && Lives(t, Listed(session, i)) && Reuses(url, loaded, t.sessions[session][i])
    requires Parsed(url) && IsLoopbackHost(url.host)
    ensures DisplayUrl(t.display, loaded) == url.(host := NormalizeLoopback(url.host)) <==>
            NormalizeLoopback(url.host) == "127.0.0.1"
            && (t.sessions[session][i].localPort != DefaultPort(url.scheme) || url.port.None?)
  {
    ShownAsTyped(t, url, t.sessions[session][i]);
  }

  // ---- Which hosts are loopback ones ----

  /** The same letters, upper case or not. */
  predicate SameLetters(a: string, b: string) {
    |a| == |b| && forall i | 0 <= i < |a| :: a[i] == b[i] || ('A' <= a[i] <= 'Z' && a[i] as int + 32 == b[i] as int)
  }

  lemma LowerIsSameLetters(a: string)
    ensures Lower(a) == "localhost" <==> SameLetters(a, "localhost")
  {
    if SameLetters(a, "localhost") {
      forall i | 0 <= i < |a| ensures Lower(a)[i] == "localhost"[i] {
      }
      assert Lower(a) == "localhost";
    }
    if Lower(a) == "localhost" {
      forall i | 0 <= i < |a| ensures a[i] == "localhost"[i] || ('A' <= a[i] <= 'Z' && a[i] as int + 32 == "localhost"[i] as int) {
        assert Lower(a)[i] == "localhost"[i];
      }
    }
  }

  /** The four names, with or without brackets around them, and what each is normalised to. */
  lemma LoopbackHosts(host: string)
    ensures host == "" || (host[0] !in "[]" && host[|host| - 1] !in "[]") ==>
              && (IsLoopbackHost(host) <==> SameLetters(host, "localhost") || host in {"127.0.0.1", "::1", "0.0.0.0"})
              && NormalizeLoopback(host) == (if SameLetters(host, "localhost") || host == "0.0.0.0" then "127.0.0.1" else host)
    ensures IsLoopbackHost("[" + host + "]") == IsLoopbackHost(host)
    ensures NormalizeLoopback("[" + host + "]") == NormalizeLoopback(host)
  {
    LowerIsSameLetters(host);
    BracketsGo(host);
  }

  lemma BracketsGo(host: string)
    ensures TrimBrackets("[" + host + "]") == TrimBrackets(host)
  {
    var s := "[" + host + "]";
    assert s[0] == '[' && s[1..] == host + "]";
    ClosingGoes(host);
  }

  lemma {:induction false} ClosingGoes(host: string)
    ensures TrimBrackets(host + "]") == TrimBrackets(host)
    decreases |host|
  {
    var s := host + "]";
    if host == "" {
      assert s == "]" && s[1..] == "";
    } else if Bracket(host[0]) {
      assert s[1..] == host[1..] + "]";
      ClosingGoes(host[1..]);
    } else {
      assert s[..|s| - 1] == host;
    }
  }

  // ---- The manager ----

  datatype Lookup = Load(url: Url) | NeedTunnel(host: string, port: nat) | SessionMissing

  class BrowserManager {
    var sessions: map<string, seq<Tunnel>>
    var display: map<nat, (string, nat)>
    /** The tunnels that navigations under way have asked for. */
    ghost var starting: map<nat, (string, Tunnel)>

    ghost function State(): Tables
      reads this
    {
      Tables(sessions, starting, display)
    }

    constructor ()
      ensures State() == Tables(map[], map[], map[]) && Consistent(State())
    {
      sessions, display, starting := map[], map[], map[];
    }

    /** `webview_url_for`, up to the start of a tunnel. */
    method LookUp(session: string, url: Url) returns (r: Lookup)
      ensures !IsLoopbackHost(url.host) ==> r == Load(url)
      ensures IsLoopbackHost(url.host) && session !in sessions ==> r == SessionMissing
      ensures IsLoopbackHost(url.host) && session in sessions ==>
                var found := Find(sessions[session], NormalizeLoopback(url.host), RemotePort(url));
                r == if found.Some? then Load(Retarget(url, found.value.localPort))
                     else NeedTunnel(NormalizeLoopback(url.host), RemotePort(url))
      ensures r.Load? && IsLoopbackHost(url.host) ==>
                exists i: nat :: session in sessions && i < |sessions[session]| && Reuses(url, r.url, sessions[session][i])
      ensures r.NeedTunnel? ==> session in sessions && Serves(url, r.host, r.port)
      ensures r.NeedTunnel? ==>
                forall i: nat | i < |sessions[session]| :: !Serves(url, sessions[session][i].host, sessions[session][i].port)
    {
      if IsLoopbackHost(url.host) && session in sessions {
        FoundServes(sessions[session], NormalizeLoopback(url.host), RemotePort(url));
      }
      if !IsLoopbackHost(url.host) {
        return Load(url);
      }
      if session !in sessions {
        return SessionMissing;
      }
      var host, port, tunnels := NormalizeLoopback(url.host), RemotePort(url), sessions[session];
      for i := 0 to |tunnels|
        invariant Find(tunnels, host, port) == Find(tunnels[i..], host, port)
      {
        assert tunnels[i..][0] == tunnels[i] && tunnels[i..][1..] == tunnels[i + 1..];
        if tunnels[i].host == host && tunnels[i].port == port {
          return Load(Retarget(url, tunnels[i].localPort));
        }
      }
      r := NeedTunnel(host, port);
    }

    /** A navigation up to its await: the step `Begin` of the tables, also when it needs no
        tunnel and the step changes nothing. */
    method BeginNavigation(ghost call: nat, session: string, url: Url, ghost localPort: nat) returns (r: Lookup)
      requires Consistent(State()) && call !in starting && PortFree(State(), localPort)
      modifies this`starting
      ensures State() == Perform(old(State()), Begin(call, session, url, localPort)) && Consistent(State())
      ensures r.NeedTunnel? <==> call in starting
      ensures r.NeedTunnel? ==> starting[call] == (session, Tunnel(r.host, r.port, localPort))
      ensures r.Load? && IsLoopbackHost(url.host) ==>
                exists i: nat :: Lives(State(), Listed(session, i)) && Reuses(url, r.url, sessions[session][i])
      ensures r.NeedTunnel? ==> Serves(url, r.host, r.port)
      ensures r.NeedTunnel? ==>
                forall i: nat | Lives(State(), Listed(session, i)) ::
                  !Serves(url, sessions[session][i].host, sessions[session][i].port)
    {
      r := LookUp(session, url);
      PerformIsConsistent(State(), Begin(call, session, url, localPort));
      if r.NeedTunnel? {
        starting := starting[call := (session, Tunnel(r.host, r.port, localPort))];
      } else if IsLoopbackHost(url.host) && session in sessions {
        ghost var i: nat :| i < |sessions[session]| && Reuses(url, r.url, sessions[session][i]);
        assert Lives(State(), Listed(session, i));
      }
    }

    /** When the tunnel is there: the step `Finish` of the tables. */
    method Register(ghost call: nat, session: string, tunnel: Tunnel) returns (ok: bool)
      requires Consistent(State()) && call in starting && starting[call] == (session, tunnel)
      modifies this
      ensures State() == Perform(old(State()), Finish(call)) && Consistent(State())
      ensures ok <==> session in old(sessions)
      ensures ok ==> Shown(State(), tunnel)
    {
      PerformIsConsistent(State(), Finish(call));
      starting := starting - {call};
      if session !in sessions {
        return false;
      }
      sessions := sessions[session := sessions[session] + [tunnel]];
      display := display[tunnel.localPort := (tunnel.host, tunnel.port)];
      ok := true;
    }

    method EnsureSession(session: string)
      requires Consistent(State())
      modifies this`sessions
      ensures State() == Perform(old(State()), Ensure(session)) && Consistent(State())
    {
      PerformIsConsistent(State(), Ensure(session));
      if session !in sessions {
        sessions := sessions[session := []];
      }
    }

    /** The tunnels go with the session, so that their ports are free again; what is shown for
        the tunnels of other sessions stays right. */
    method ShutdownSession(session: string)
      requires Consistent(State())
      modifies this`sessions
      ensures State() == Perform(old(State()), Shutdown(session)) && Consistent(State())
      ensures forall i: nat | session in old(sessions) && i < |old(sessions)[session]| ::
                PortFree(State(), old(sessions)[session][i].localPort)
      ensures forall s: string, i: nat | s != session && s in old(sessions) && i < |old(sessions)[s]| ::
                Lives(State(), Listed(s, i)) && Shown(State(), old(sessions)[s][i])
    {
      ghost var before := State();
      PerformIsConsistent(before, Shutdown(session));
      sessions := sessions - {session};
      PortsComeFree(before, State(), session);
      forall s: string, i: nat | s != session && s in before.sessions && i < |before.sessions[s]|
        ensures Lives(State(), Listed(s, i)) && Shown(State(), before.sessions[s][i])
      {
        assert Lives(State(), Listed(s, i));
      }
    }
  }

  lemma PortsComeFree(t: Tables, u: Tables, session: string)
    requires Consistent(t) && u == t.(sessions := t.sessions - {session})
    ensures forall i: nat | Lives(t, Listed(session, i)) :: PortFree(u, t.sessions[session][i].localPort)
  {
    forall i: nat, p | Lives(t, Listed(session, i)) && Lives(u, p)
      ensures At(u, p).localPort != t.sessions[session][i].localPort
    {
      assert Lives(t, p) && At(t, p) == At(u, p) && p != Listed(session, i);
    }
  }
}
