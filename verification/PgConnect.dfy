/** Choosing a database URL that this host can reach
    (backend/app/storage/pg_connect.py): `prepare_database_url` follows a local
    or direct URL to the configured cloud or pooler URL, by calling itself. */
module PgConnect {
  import opened Prelude
  import opened TextOps

  /** A URL taken apart; port 0 stands for none. */
  datatype Url = Url(
    user: string,
    password: string,
    host: string,
    port: nat,
    path: string,
    query: map<string, string>)

  /** The environment variables the chooser reads, None for unset or blank. */
  datatype Env = Env(
    poolerUrl: Option<Url>,
    poolerHost: string,
    dbUrl: Option<Url>,
    controlPlaneUrl: Option<Url>,
    databaseUrl: Option<Url>)

  /** The keyword arguments, None and "" for the defaults. */
  datatype Args = Args(fallback: Option<Url>, poolerUrl: Option<Url>, poolerHost: string)

  // ---------------------------------------------------------------- hosts

  function BeforePercent(host: string): string {
    if host == "" || host[0] == '%' then "" else [host[0]] + BeforePercent(host[1..])
  }

  predicate EndsWith(s: string, suffix: string) {
    |suffix| <= |s| && s[|s| - |suffix|..] == suffix
  }

  predicate LocalName(h: string) {
    h == "localhost" || h == "127.0.0.1" || h == "::1" || h == "postgres"
  }

  /** `is_local_pg_host` */
  predicate IsLocal(host: string) {
    var h := Lower(BeforePercent(host));
    LocalName(h) || EndsWith(h, ".local")
  }

  predicate IsAlnum(c: char) {
    'a' <= LowerChar(c) <= 'z' || '0' <= c <= '9'
  }

  const DB_DOT := "db."
  const SUPABASE_CO := ".supabase.co"
  const POOLER := "pooler.supabase.com"

  /** `db.<ref>.supabase.co`, in any case: reachable over IPv6 only. */
  predicate IsDirect(host: string) {
    && |host| > |DB_DOT| + |SUPABASE_CO|
    && Lower(host)[..|DB_DOT|] == DB_DOT
    && Lower(host)[|host| - |SUPABASE_CO|..] == SUPABASE_CO
    && forall i :: |DB_DOT| <= i < |host| - |SUPABASE_CO| ==> IsAlnum(host[i])
  }

  function DirectRef(host: string): string
    requires IsDirect(host)
  {
    host[|DB_DOT|..|host| - |SUPABASE_CO|]
  }

  /** `is_supabase_pooler_host` */
  predicate IsPooler(host: string) {
    exists i | 0 <= i <= |host| :: OccursAt(Lower(host), POOLER, i)
  }

  predicate OccursAt(s: string, part: string, i: nat) {
    i + |part| <= |s| && s[i..i + |part|] == part
  }

  lemma {:induction false} LastOf(s: string, suffix: string)
    requires EndsWith(s, suffix) && suffix != ""
    ensures s != "" && s[|s| - 1] == suffix[|suffix| - 1]
  {
    assert s[|s| - |suffix|..][|suffix| - 1] == s[|s| - 1];
  }

  lemma {:induction false} DirectIsNotLocal(host: string)
    requires IsDirect(host)
    ensures !IsLocal(host)
  {
    NoPercent(host);
    var h := Lower(host);
    LastOf(h, SUPABASE_CO);
    EndsInO(h);
  }

  lemma {:induction false} EndsInO(h: string)
    requires h != "" && h[|h| - 1] == 'o'
    ensures !LocalName(h) && !EndsWith(h, ".local")
  {
    if EndsWith(h, ".local") {
      LastOf(h, ".local");
    }
  }

  lemma {:induction false} NoPercent(host: string)
    requires IsDirect(host)
    ensures BeforePercent(host) == host
  {
    forall i | 0 <= i < |host| ensures host[i] != '%' {
      var h := Lower(host);
      if i < |DB_DOT| {
        assert h[i] == DB_DOT[i];
      } else if i >= |host| - |SUPABASE_CO| {
        assert h[i] == SUPABASE_CO[i - (|host| - |SUPABASE_CO|)];
      }
    }
    PlainBeforePercent(host);
  }

  lemma {:induction false} PlainBeforePercent(host: string)
    requires forall i :: 0 <= i < |host| ==> host[i] != '%'
    ensures BeforePercent(host) == host
  {
    if host != "" {
      PlainBeforePercent(host[1..]);
    }
  }

  /** The dots of a direct host stand where a pooler name leaves no room. */
  lemma {:induction false} DirectIsNotPooler(host: string)
    requires IsDirect(host)
    ensures !IsPooler(host)
  {
    var h := Lower(host);
    forall i: nat ensures !OccursAt(h, POOLER, i) {
      if OccursAt(h, POOLER, i) {
        assert h[i + 6] == h[i..i + |POOLER|][6];
        DotsOfDirect(host, i + 6);
      }
    }
  }

  lemma {:induction false} DotsOfDirect(host: string, j: nat)
    requires IsDirect(host) && j < |host| && Lower(host)[j] == '.'
    ensures j == 2 || j == |host| - 12 || j == |host| - 3
  {
    var h := Lower(host);
    if j < |DB_DOT| {
      assert h[j] == h[..|DB_DOT|][j] == DB_DOT[j];
    } else if j >= |host| - |SUPABASE_CO| {
      var k := j - (|host| - |SUPABASE_CO|);
      assert h[j] == h[|host| - |SUPABASE_CO|..][k] == SUPABASE_CO[k];
    } else {
      assert IsAlnum(host[j]);
    }
  }

  // ---------------------------------------------------------------- hosts, spelled out

  /** Up to the first '%' and in small letters, the host is a local name or ends in ".local". */
  ghost predicate NamesLocal(host: string) {
    exists name, rest, small ::
      && host == name + rest && '%' !in name && (rest == "" || rest[0] == '%')
      && IsSmallFormOf(small, name)
      && (small == "localhost" || small == "127.0.0.1" || small == "::1" || small == "postgres"
          || exists a :: small == a + ".local")
  }

  ghost predicate NamesPooler(host: string) {
    exists small, a, b :: IsSmallFormOf(small, host) && small == a + "pooler.supabase.com" + b
  }

  /** The host names the project `project`, in whatever case. */
  ghost predicate NamesProject(host: string, project: string) {
    && project != ""
    && (forall i :: 0 <= i < |project| ==>
          var c := project[i] as int;
          48 <= c <= 57 || 65 <= c <= 90 || 97 <= c <= 122)
    && exists pre, post :: host == pre + project + post
                           && SameButCase(pre, "db.") && SameButCase(post, ".supabase.co")
  }

  lemma {:induction false} BeforePercentStarts(host: string) returns (rest: string)
    ensures host == BeforePercent(host) + rest && '%' !in BeforePercent(host) && (rest == "" || rest[0] == '%')
  {
    if host == "" || host[0] == '%' {
      rest := host;
      assert "" + rest == host;
    } else {
      rest := BeforePercentStarts(host[1..]);
      assert host == [host[0]] + host[1..];
      assert [host[0]] + (BeforePercent(host[1..]) + rest) == ([host[0]] + BeforePercent(host[1..])) + rest;
    }
  }

  lemma {:induction false} BeforePercentIs(name: string, rest: string)
    requires '%' !in name && (rest == "" || rest[0] == '%')
    ensures BeforePercent(name + rest) == name
  {
    if name == "" {
      assert name + rest == rest;
    } else {
      assert name[0] in name && (name + rest)[0] == name[0];
      assert (name + rest)[1..] == name[1..] + rest;
      assert forall c :: c in name[1..] ==> c in name;
      BeforePercentIs(name[1..], rest);
      assert [name[0]] + name[1..] == name;
    }
  }

  lemma {:induction false} EndsWithSpelled(s: string, suffix: string)
    ensures EndsWith(s, suffix) <==> exists a :: s == a + suffix
  {
    if EndsWith(s, suffix) {
      assert s == s[..|s| - |suffix|] + suffix;
    }
    if a :| s == a + suffix {
      assert s[|a|..] == suffix;
    }
  }

  lemma {:induction false} LocalSpelled(host: string)
    ensures IsLocal(host) <==> NamesLocal(host)
  {
    hide Lower, BeforePercent, EndsWith, IsSmallFormOf;
    var b := BeforePercent(host);
    var after := BeforePercentStarts(host);
    EndsWithSpelled(Lower(b), ".local");
    LowerIsSmallForm(b, Lower(b));
    if IsLocal(host) {
      assert host == b + after && '%' !in b && (after == "" || after[0] == '%') && IsSmallFormOf(Lower(b), b);
    }
    if NamesLocal(host) {
      var name, rest, small :|
        && host == name + rest && '%' !in name && (rest == "" || rest[0] == '%')
        && IsSmallFormOf(small, name)
        && (small == "localhost" || small == "127.0.0.1" || small == "::1" || small == "postgres"
            || exists a :: small == a + ".local");
      BeforePercentIs(name, rest);
      LowerIsSmallForm(name, small);
    }
  }

  lemma {:induction false} PoolerSpelled(host: string)
    ensures IsPooler(host) <==> NamesPooler(host)
  {
    hide Lower, OccursAt, IsSmallFormOf;
    var h := Lower(host);
    LowerIsSmallForm(host, h);
    if IsPooler(host) {
      var i :| 0 <= i <= |host| && OccursAt(h, POOLER, i);
      OccursSpelled(h, POOLER, i);
      assert IsSmallFormOf(h, host) && h == h[..i] + "pooler.supabase.com" + h[i + |POOLER|..];
    }
    if NamesPooler(host) {
      var small, a, b :| IsSmallFormOf(small, host) && small == a + "pooler.supabase.com" + b;
      LowerIsSmallForm(host, small);
      OccursBetween(a, POOLER, b);
    }
  }

  lemma {:induction false} OccursSpelled(s: string, part: string, i: nat)
    requires OccursAt(s, part, i)
    ensures i + |part| <= |s| && s == s[..i] + part + s[i + |part|..]
  {
  }

  lemma {:induction false} OccursBetween(a: string, part: string, b: string)
    ensures OccursAt(a + part + b, part, |a|)
  {
  }

  lemma {:induction false} DirectSpelled(host: string, project: string)
    ensures IsDirect(host) && DirectRef(host) == project <==> NamesProject(host, project)
  {
    hide LowerChar;
    if IsDirect(host) && DirectRef(host) == project {
      DirectParts(host);
      AlnumSpelled(project);
      var pre, post := host[..|DB_DOT|], host[|host| - |SUPABASE_CO|..];
      assert forall i :: 0 <= i < |project| ==> project[i] == host[|DB_DOT| + i];
      assert host == pre + project + post;
    }
    if NamesProject(host, project) {
      var pre, post :| host == pre + project + post
                       && SameButCase(pre, "db.") && SameButCase(post, ".supabase.co");
      AlnumSpelled(project);
      PartsAreDirect(pre, project, post);
    }
  }

  lemma {:induction false} AlnumSpelled(s: string)
    ensures (forall i :: 0 <= i < |s| ==> IsAlnum(s[i])) <==>
        forall i :: 0 <= i < |s| ==>
          var c := s[i] as int;
          48 <= c <= 57 || 65 <= c <= 90 || 97 <= c <= 122
  {
  }

  lemma {:induction false} PlainParts()
    ensures Lower(DB_DOT) == DB_DOT && Lower(SUPABASE_CO) == SUPABASE_CO
  {
    LowerIsSmallForm(DB_DOT, DB_DOT);
    LowerIsSmallForm(SUPABASE_CO, SUPABASE_CO);
  }

  lemma {:induction false} DirectParts(host: string)
    requires IsDirect(host)
    ensures SameButCase(host[..|DB_DOT|], "db.") && SameButCase(host[|host| - |SUPABASE_CO|..], ".supabase.co")
  {
    hide SameButCase;
    PlainParts();
    var pre, post := host[..|DB_DOT|], host[|host| - |SUPABASE_CO|..];
    assert Lower(pre) == Lower(host)[..|DB_DOT|];
    assert Lower(post) == Lower(host)[|host| - |SUPABASE_CO|..];
    SameLower(pre, DB_DOT);
    SameLower(post, SUPABASE_CO);
  }

  lemma {:induction false} PartsAreDirect(pre: string, project: string, post: string)
    requires SameButCase(pre, "db.") && SameButCase(post, ".supabase.co")
    requires project != "" && forall i :: 0 <= i < |project| ==> IsAlnum(project[i])
    ensures IsDirect(pre + project + post) && DirectRef(pre + project + post) == project
  {
    PlainParts();
    SameLower(pre, DB_DOT);
    SameLower(post, SUPABASE_CO);
    var host := pre + project + post;
    assert |pre| == |DB_DOT| && |post| == |SUPABASE_CO|;
    hide SameButCase, IsAlnum;
    assert Lower(host)[..|DB_DOT|] == Lower(pre);
    assert Lower(host)[|host| - |SUPABASE_CO|..] == Lower(post);
    assert forall i :: |DB_DOT| <= i < |host| - |SUPABASE_CO| ==> host[i] == project[i - |DB_DOT|];
  }

  // ---------------------------------------------------------------- settings

  function Or(a: Option<Url>, b: Option<Url>): Option<Url> {
    if a.Some? then a else b
  }

  /** Arguments first, then the environment. */
  function PoolerUrl(args: Args, env: Env): Option<Url> {
    Or(args.poolerUrl, env.poolerUrl)
  }

  function Fallback(args: Args, env: Env): Option<Url> {
    Or(args.fallback, env.dbUrl)
  }

  function PoolerHost(args: Args, env: Env): string {
    if args.poolerHost != "" then args.poolerHost else env.poolerHost
  }

  function CloudUrl(args: Args, env: Env): Option<Url> {
    Or(PoolerUrl(args, env), Or(Fallback(args, env), Or(env.controlPlaneUrl, env.databaseUrl)))
  }

  /** The first of the two that names a pooler host. */
  function PoolerCandidate(args: Args, env: Env): Option<Url> {
    var p, f := PoolerUrl(args, env), Fallback(args, env);
    if p.Some? && IsPooler(p.value.host) then p
    else if f.Some? && IsPooler(f.value.host) then f
    else None
  }

  /** Where a direct URL is sent. */
  function Target(args: Args, env: Env): Option<Url> {
    Or(PoolerCandidate(args, env), PoolerUrl(args, env))
  }

  /** What the recursive call passes on. */
  function Inner(args: Args, env: Env): Args {
    Args(None, None, PoolerHost(args, env))
  }

  predicate CloudIsRemote(args: Args, env: Env) {
    var c := CloudUrl(args, env);
    c.Some? && !IsLocal(c.value.host)
  }

  /** The URL to start over with, None when this one will do. */
  function Preferred(url: Url, args: Args, env: Env): Option<Url> {
    if IsLocal(url.host) && CloudIsRemote(args, env) then CloudUrl(args, env)
    else if IsDirect(url.host) then Target(args, env)
    else None
  }

  /** A URL that will do, made connectable. */
  function Finished(url: Url, args: Args, env: Env): Url {
    var poolerHost := PoolerHost(args, env);
    var moved := IsDirect(url.host) && poolerHost != "";
    var user :=
      if moved && url.user in {"postgres", "authenticator"} then "postgres." + DirectRef(url.host) else url.user;
    var host := if moved then poolerHost else url.host;
    var given := if url.port == 0 then 5432 else url.port;
    var port := if IsPooler(host) && given == 5432 then 6543 else given;
    Url(user, url.password, if host in {"localhost", "::1"} then "127.0.0.1" else host, port, url.path,
        url.query - {"sslmode", "ssl"})
  }

  /** The first URL of the list that is there. */
  ghost predicate IsFirst(list: seq<Option<Url>>, first: Option<Url>) {
    if first == None then forall i :: 0 <= i < |list| ==> list[i] == None
    else exists i :: 0 <= i < |list| && list[i] == first && forall j :: 0 <= j < i ==> list[j] == None
  }

  /** Where a call goes on. A local URL goes to the first cloud URL, of the
      pooler URLs, the fallbacks, the control plane's and the plain one, unless
      that is local too. A direct URL goes to the pooler URL or the fallback,
      whichever names a pooler host first, else to the pooler URL. Arguments
      come before the environment; any other URL is where the call ends. */
  lemma {:induction false} WhereItGoes(url: Url, args: Args, env: Env)
    returns (pooler: Option<Url>, fallback: Option<Url>, cloud: Option<Url>)
    ensures IsFirst([args.poolerUrl, env.poolerUrl], pooler) && IsFirst([args.fallback, env.dbUrl], fallback)
    ensures IsFirst([args.poolerUrl, env.poolerUrl, args.fallback, env.dbUrl, env.controlPlaneUrl, env.databaseUrl],
                    cloud)
    ensures Preferred(url, args, env) ==
              if NamesLocal(url.host) && cloud != None && !NamesLocal(cloud.value.host) then cloud
              else if exists project :: NamesProject(url.host, project) then
                if pooler != None && NamesPooler(pooler.value.host) then pooler
                else if fallback != None && NamesPooler(fallback.value.host) then fallback
                else pooler
              else None
    ensures Inner(args, env) == Args(None, None, if args.poolerHost != "" then args.poolerHost else env.poolerHost)
  {
    hide IsLocal, IsPooler, IsDirect, NamesLocal, NamesPooler, NamesProject;
    pooler, fallback, cloud := PoolerUrl(args, env), Fallback(args, env), CloudUrl(args, env);
    LocalSpelled(url.host);
    if cloud.Some? { LocalSpelled(cloud.value.host); }
    if pooler.Some? { PoolerSpelled(pooler.value.host); }
    if fallback.Some? { PoolerSpelled(fallback.value.host); }
    forall project { DirectSpelled(url.host, project); }
    assert IsDirect(url.host) ==> NamesProject(url.host, DirectRef(url.host));
    FirstOfSix(args.poolerUrl, env.poolerUrl, args.fallback, env.dbUrl, env.controlPlaneUrl, env.databaseUrl);
  }

  lemma {:induction false} FirstOfTwo(a: Option<Url>, b: Option<Url>)
    ensures IsFirst([a, b], Or(a, b))
  {
    var list := [a, b];
    assert list[0] == a && list[1] == b;
  }

  lemma {:induction false} FirstOfSix(a: Option<Url>, b: Option<Url>, c: Option<Url>, d: Option<Url>, e: Option<Url>,
                                      f: Option<Url>)
    ensures IsFirst([a, b], Or(a, b)) && IsFirst([c, d], Or(c, d))
    ensures IsFirst([a, b, c, d, e, f], Or(Or(a, b), Or(Or(c, d), Or(e, f))))
  {
    FirstOfTwo(a, b);
    FirstOfTwo(c, d);
    var list := [a, b, c, d, e, f];
    assert list[0] == a && list[1] == b && list[2] == c && list[3] == d && list[4] == e && list[5] == f;
  }

  // ---------------------------------------------------------------- termination

  /** The URL n calls further down, None when the recursion has ended by then. */
  function Nth(url: Url, args: Args, env: Env, n: nat): Option<Url>
    decreases n
  {
    if n == 0 then Some(url)
    else
      var next := Preferred(url, args, env);
      if next.None? then None else Nth(next.value, Inner(args, env), env, n - 1)
  }

  /** The environment's pooler URL is no direct host, unless the database URL
      names a remote pooler host. */
  predicate Settles(env: Env) {
    || env.poolerUrl.None?
    || !IsDirect(env.poolerUrl.value.host)
    || (env.dbUrl.Some? && IsPooler(env.dbUrl.value.host) && !IsLocal(env.dbUrl.value.host))
  }

  /** What a recursive call sees: the environment and one pooler host. */
  predicate Defaults(args: Args) {
    args.poolerUrl.None? && args.fallback.None?
  }

  /** Below the first call the recursion is at most two calls deep. */
  lemma {:induction false} InnerDepth(url: Url, args: Args, env: Env)
    requires Settles(env) && Defaults(args)
    ensures Nth(url, args, env, 3).None?
  {
    var inner := Inner(args, env);
    var p, b := env.poolerUrl, env.dbUrl;
    if p.Some? && IsDirect(p.value.host) { DirectIsNotPooler(p.value.host); DirectIsNotLocal(p.value.host); }
    if b.Some? && IsDirect(b.value.host) { DirectIsNotPooler(b.value.host); }
    var c := CloudUrl(args, env);
    if c.Some? && IsDirect(c.value.host) { DirectIsNotLocal(c.value.host); }
    hide IsDirect, IsLocal, IsPooler;
    var v := Preferred(url, args, env);
    if v.Some? {
      var w := Preferred(v.value, inner, env);
      if w.Some? {
        assert Preferred(w.value, inner, env).None?;
        assert Nth(w.value, inner, env, 1).None?;
        assert Nth(v.value, inner, env, 2).None?;
      }
    }
  }

  /** Calls still to come. */
  function Rank(url: Url, args: Args, env: Env): nat {
    if Nth(url, args, env, 1).None? then 0
    else if Nth(url, args, env, 2).None? then 1
    else if Nth(url, args, env, 3).None? then 2
    else 3
  }

  lemma {:induction false} RankDrops(url: Url, args: Args, env: Env)
    requires Settles(env) && Preferred(url, args, env).Some?
    ensures Rank(Preferred(url, args, env).value, Inner(args, env), env) < Rank(url, args, env)
  {
    var next, inner := Preferred(url, args, env).value, Inner(args, env);
    InnerDepth(next, inner, env);
    hide Preferred;
    assert Nth(url, args, env, 1).Some?;
    assert Nth(url, args, env, 2) == Nth(next, inner, env, 1);
    assert Nth(url, args, env, 3) == Nth(next, inner, env, 2);
  }

  /** With a direct pooler URL and no remote pooler to go to, the recursion
      goes round for ever. */
  lemma {:induction false} GoesRound(env: Env, url: Url, n: nat)
    requires !Settles(env) && Some(url) in {env.poolerUrl, PoolerCandidate(Args(None, None, env.poolerHost), env)}
    ensures Nth(url, Args(None, None, env.poolerHost), env, n).Some?
    decreases n
  {
    var args := Args(None, None, env.poolerHost);
    if n > 0 {
      var p := env.poolerUrl.value;
      DirectIsNotLocal(p.host);
      DirectIsNotPooler(p.host);
      assert Inner(args, env) == args;
      hide IsDirect, IsLocal, IsPooler;
      GoesRound(env, Preferred(url, args, env).value, n - 1);
    }
  }

  ghost predicate ComesToAnEnd(url: Url, args: Args, env: Env) {
    exists n :: Nth(url, args, env, n).None?
  }

  /** Every call comes to an end exactly in an environment that settles. */
  lemma {:induction false} TerminatesIff(env: Env)
    ensures (forall url, args :: ComesToAnEnd(url, args, env)) <==> Settles(env)
  {
    if Settles(env) {
      forall url, args ensures ComesToAnEnd(url, args, env) {
        EndsSoon(url, args, env);
      }
    } else {
      var args := Args(None, None, env.poolerHost);
      forall n ensures Nth(env.poolerUrl.value, args, env, n).Some? {
        GoesRound(env, env.poolerUrl.value, n);
      }
      assert !ComesToAnEnd(env.poolerUrl.value, args, env);
    }
  }

  lemma {:induction false} EndsSoon(url: Url, args: Args, env: Env)
    requires Settles(env)
    ensures ComesToAnEnd(url, args, env)
  {
    var next := Preferred(url, args, env);
    if next.Some? {
      InnerDepth(next.value, Inner(args, env), env);
      hide Preferred;
      assert Nth(url, args, env, 4).None?;
    } else {
      assert Nth(url, args, env, 1).None?;
    }
  }

  // ---------------------------------------------------------------- the chooser

  function Prepared(url: Url, args: Args, env: Env): Url
    requires Settles(env)
    decreases Rank(url, args, env)
  {
    var next := Preferred(url, args, env);
    if next.None? then Finished(url, args, env)
    else
      RankDrops(url, args, env);
      Prepared(next.value, Inner(args, env), env)
  }

  /** `prepare_database_url`; None is the empty URL. */
  method PrepareDatabaseUrl(url: Option<Url>, args: Args, env: Env) returns (prepared: Option<Url>)
    requires Settles(env)
    ensures prepared == if url.None? then None else Some(Prepared(url.value, args, env))
    decreases if url.None? then 0 else Rank(url.value, args, env)
  {
    if url.None? {
      return None;
    }
    var parsed := url.value;
    var poolerUrl, fallback, poolerHost := PoolerUrl(args, env), Fallback(args, env), PoolerHost(args, env);
    var cloudUrl := Or(poolerUrl, Or(fallback, Or(env.controlPlaneUrl, env.databaseUrl)));
    var host, port, user := parsed.host, if parsed.port == 0 then 5432 else parsed.port, parsed.user;
    var query := parsed.query - {"sslmode"} - {"ssl"};
    if Preferred(parsed, args, env).Some? {
      RankDrops(parsed, args, env);
    }
    hide Rank, IsDirect, IsLocal, IsPooler;
    if IsLocal(host) && cloudUrl.Some? && !IsLocal(cloudUrl.value.host) {
      prepared := PrepareDatabaseUrl(cloudUrl, Args(None, None, poolerHost), env);
      return;
    }
    var candidate := PoolerCandidate(args, env);
    var direct := IsDirect(host);
    if direct && candidate.Some? {
      prepared := PrepareDatabaseUrl(candidate, Args(None, None, poolerHost), env);
      return;
    }
    if direct && poolerUrl.Some? {
      prepared := PrepareDatabaseUrl(poolerUrl, Args(None, None, poolerHost), env);
      return;
    }
    if direct && poolerHost != "" {
      if user in {"postgres", "authenticator"} {
        user := "postgres." + DirectRef(host);
      }
      host := poolerHost;
      if port == 5432 && IsPooler(poolerHost) {
        port := 6543;
      }
    }
    if IsPooler(host) && port == 5432 {
      port := 6543;
    }
    if host in {"localhost", "::1"} {
      host := "127.0.0.1";
    }
    assert query == parsed.query - {"sslmode", "ssl"};
    prepared := Some(Url(user, parsed.password, host, port, parsed.path, query));
  }

  // ---------------------------------------------------------------- what comes out

  /** Names without capitals and without `%` are compared as they stand. */
  lemma {:induction false} PlainHost(host: string)
    requires forall c :: c in host ==> c != '%' && !('A' <= c <= 'Z')
    ensures Lower(BeforePercent(host)) == host
  {
    assert forall i :: 0 <= i < |host| ==> host[i] in host;
    PlainBeforePercent(host);
  }

  lemma {:induction false} LocalhostIsLocal()
    ensures IsLocal("localhost")
  {
    assert forall c :: c in "localhost" ==> c != '%' && !('A' <= c <= 'Z');
    PlainHost("localhost");
    hide Lower, BeforePercent, EndsWith;
  }

  lemma {:induction false} LoopbacksAreLocal()
    ensures IsLocal("::1") && IsLocal("127.0.0.1")
  {
    PlainHost("::1");
    PlainHost("127.0.0.1");
    hide Lower, BeforePercent, EndsWith;
  }

  lemma {:induction false} NoHostIsNotLocal()
    ensures !IsLocal("")
  {
    PlainHost("");
    hide Lower, BeforePercent;
  }

  lemma {:induction false} LocalNames()
    ensures IsLocal("localhost") && IsLocal("::1") && IsLocal("127.0.0.1")
    ensures !IsLocal("")
  {
    LocalhostIsLocal();
    LoopbacksAreLocal();
    NoHostIsNotLocal();
    hide IsLocal;
  }

  lemma {:induction false} LocalIsNoPooler()
    ensures !IsPooler("127.0.0.1") && !IsDirect("127.0.0.1") && !IsPooler("localhost") && !IsPooler("::1")
  {
  }

  /** Never a pooler host on the session port, never a name that resolves to
      IPv6 on this machine, never a TLS option the driver does not know. */
  lemma {:induction false} AlwaysConnectable(url: Url, args: Args, env: Env)
    requires Settles(env)
    ensures var r := Prepared(url, args, env);
            && !(NamesPooler(r.host) && r.port == 5432)
            && r.port != 0
            && r.host !in {"localhost", "::1"}
            && "sslmode" !in r.query && "ssl" !in r.query
    decreases Rank(url, args, env)
  {
    LocalIsNoPooler();
    PoolerSpelled(Prepared(url, args, env).host);
    hide IsDirect, IsLocal, IsPooler, NamesPooler, Rank;
    if Preferred(url, args, env).Some? {
      RankDrops(url, args, env);
      AlwaysConnectable(Preferred(url, args, env).value, Inner(args, env), env);
    }
  }

  /** The URLs a call may end with: its own, or one that is configured. */
  ghost predicate Known(c: Url, url: Url, args: Args, env: Env) {
    || c == url
    || Some(c) in {args.poolerUrl, args.fallback}
    || Some(c) in {env.poolerUrl, env.dbUrl, env.controlPlaneUrl, env.databaseUrl}
  }

  /** r is c made connectable: its password, path and remaining query, its port
      or the transaction port for a pooler host on the session port, and either
      its own host and user or, for a direct host, the configured pooler host
      with the project named in the user; the loopback stands for local names. */
  ghost predicate MadeFrom(r: Url, c: Url, poolerHost: string) {
    && r.password == c.password && r.path == c.path
    && (forall k :: k in r.query <==> k in c.query && k != "sslmode" && k != "ssl")
    && (forall k :: k in r.query ==> r.query[k] == c.query[k])
    && (if (exists project :: NamesProject(c.host, project)) && poolerHost != "" then
          && IsReached(r.host, poolerHost)
          && (exists project :: NamesProject(c.host, project) &&
                r.user == if c.user == "postgres" || c.user == "authenticator" then "postgres." + project else c.user)
        else IsReached(r.host, c.host) && r.user == c.user)
    && r.port == (if (c.port == 0 || c.port == 5432) && NamesPooler(r.host) then 6543
                  else if c.port == 0 then 5432 else c.port)
  }

  ghost predicate IsReached(host: string, named: string) {
    host == if named == "localhost" || named == "::1" then "127.0.0.1" else named
  }

  lemma {:induction false} FinishedSpelled(url: Url, args: Args, env: Env)
    ensures MadeFrom(Finished(url, args, env), url, if args.poolerHost != "" then args.poolerHost else env.poolerHost)
  {
    LocalIsNoPooler();
    hide IsPooler, IsDirect, NamesPooler, NamesProject;
    forall project { DirectSpelled(url.host, project); }
    PoolerSpelled(Finished(url, args, env).host);
    if IsDirect(url.host) {
      assert NamesProject(url.host, DirectRef(url.host));
    }
  }

  /** One URL goes through: the result never joins the credentials of one
      configured URL to the host of another. */
  lemma {:induction false} OneUrlThroughout(url: Url, args: Args, env: Env) returns (c: Url)
    requires Settles(env)
    ensures Known(c, url, args, env)
    ensures MadeFrom(Prepared(url, args, env), c, if args.poolerHost != "" then args.poolerHost else env.poolerHost)
    decreases Rank(url, args, env)
  {
    hide IsDirect, IsLocal, IsPooler, Rank, MadeFrom, Finished;
    var next := Preferred(url, args, env);
    if next.None? {
      FinishedSpelled(url, args, env);
      c := url;
    } else {
      RankDrops(url, args, env);
      c := OneUrlThroughout(next.value, Inner(args, env), env);
    }
  }

  /** No pooler host, or one that is neither local nor direct. */
  predicate PlainPoolerHost(args: Args, env: Env) {
    var h := PoolerHost(args, env);
    !IsLocal(h) && !IsDirect(h)
  }

  lemma {:induction false} FinishedTwice(url: Url, args: Args, env: Env)
    requires PlainPoolerHost(args, env)
    ensures var r := Finished(url, args, env); Finished(r, args, env) == r
  {
    LocalNames();
    LocalIsNoPooler();
    hide IsDirect, IsLocal, IsPooler;
    var r := Finished(url, args, env);
    assert r.query == r.query - {"sslmode", "ssl"};
    assert IsDirect(r.host) ==> PoolerHost(args, env) == "";
  }

  lemma {:induction false} HostStays(url: Url, args: Args, env: Env)
    requires PoolerHost(args, env) == "" && !IsLocal(url.host)
    ensures Finished(url, args, env).host == url.host
  {
    LocalNames();
    hide IsLocal, IsDirect, IsPooler;
  }

  lemma {:induction false} PreparedIn(url: Url, args: Args, env: Env)
    requires Settles(env)
    ensures var next := Preferred(url, args, env);
            Prepared(url, args, env) ==
              if next.None? then Finished(url, args, env) else Prepared(next.value, Inner(args, env), env)
  {
  }
}
