/** Where `prepare_database_url` ends (backend/app/storage/pg_connect.py): for
    which settings the outcome is always a remote host, and for which preparing
    a prepared URL changes nothing. */
module PgOutcomes {
  import opened Prelude
  import opened TextOps
  import opened PgConnect

  // ---------------------------------------------------------------- below the first call

  /** The URL that is finished when a recursive call starts from v; `inner` are
      its settings, the environment and one pooler host. */
  function Landed(v: Url, inner: Args, env: Env): Url {
    var target := Target(inner, env);
    if IsLocal(v.host) then
      if !CloudIsRemote(inner, env) then v
      else
        var c := CloudUrl(inner, env).value;
        if IsDirect(c.host) && target.Some? then target.value else c
    else if IsDirect(v.host) && target.Some? then
      if IsLocal(target.value.host) && CloudIsRemote(inner, env) then CloudUrl(inner, env).value else target.value
    else v
  }

  lemma {:induction false} InnerFixed(args: Args, env: Env)
    ensures var inner := Inner(args, env);
            Inner(inner, env) == inner && Defaults(inner) && PoolerHost(inner, env) == PoolerHost(args, env)
  {
  }

  /** The configured hosts are of one kind each, and a direct pooler URL has a
      remote pooler beside it. */
  lemma {:induction false} SettledHosts(inner: Args, env: Env)
    requires Settles(env) && Defaults(inner)
    ensures var target, c := Target(inner, env), CloudUrl(inner, env);
            && (target.Some? ==> !IsDirect(target.value.host))
            && (target.Some? && IsLocal(target.value.host) && CloudIsRemote(inner, env) ==> !IsDirect(c.value.host))
            && (c.Some? && IsDirect(c.value.host) ==> !IsLocal(c.value.host))
  {
    var p, b, c := env.poolerUrl, env.dbUrl, CloudUrl(inner, env);
    if p.Some? && IsDirect(p.value.host) { DirectIsNotPooler(p.value.host); DirectIsNotLocal(p.value.host); }
    if b.Some? && IsDirect(b.value.host) { DirectIsNotPooler(b.value.host); }
    if c.Some? && IsDirect(c.value.host) { DirectIsNotLocal(c.value.host); }
    hide IsDirect, IsLocal, IsPooler;
  }

  lemma {:induction false} LandsThere(v: Url, args: Args, env: Env)
    requires Settles(env)
    ensures var inner := Inner(args, env);
            && Prepared(v, inner, env) == Finished(Landed(v, inner, env), inner, env)
            && Preferred(Landed(v, inner, env), inner, env).None?
  {
    var inner := Inner(args, env);
    InnerFixed(args, env);
    SettledHosts(inner, env);
    if IsDirect(v.host) { DirectIsNotLocal(v.host); }
    hide IsDirect, IsLocal, IsPooler, Finished, Prepared, PoolerCandidate, Target;
    PreparedIn(v, inner, env);
    var next := Preferred(v, inner, env);
    if next.Some? {
      PreparedIn(next.value, inner, env);
      var last := Preferred(next.value, inner, env);
      if last.Some? {
        PreparedIn(last.value, inner, env);
      }
    }
  }

  /** The outcome of any call, in closed form. */
  lemma {:induction false} PreparedFrom(url: Url, args: Args, env: Env)
    requires Settles(env)
    ensures var inner := Inner(args, env);
            Prepared(url, args, env) ==
              if IsLocal(url.host) && CloudIsRemote(args, env) then
                Finished(Landed(CloudUrl(args, env).value, inner, env), inner, env)
              else if IsDirect(url.host) && Target(args, env).Some? then
                Finished(Landed(Target(args, env).value, inner, env), inner, env)
              else Finished(url, args, env)
  {
    PreparedIn(url, args, env);
    var next := Preferred(url, args, env);
    if next.Some? {
      LandsThere(next.value, args, env);
    }
    hide IsDirect, IsLocal, Finished, Prepared, Target, Landed;
  }

  // ---------------------------------------------------------------- never a local host

  lemma {:induction false} FinishedLocality(url: Url, args: Args, env: Env)
    ensures var h := PoolerHost(args, env);
            IsLocal(Finished(url, args, env).host)
            == if IsDirect(url.host) && h != "" then IsLocal(h) else IsLocal(url.host)
  {
    LocalNames();
    hide IsDirect, IsLocal, IsPooler;
  }

  /** A recursive call from v ends on a remote host. */
  predicate EndsRemote(v: Url, args: Args, env: Env) {
    var end, h := Landed(v, Inner(args, env), env), PoolerHost(args, env);
    if IsDirect(end.host) && h != "" then !IsLocal(h) else !IsLocal(end.host)
  }

  /** The settings under which no call ends on a local host: a remote cloud URL
      for local URLs to go to, and remote ends for it and for whatever a direct
      URL is sent to. */
  predicate RemoteSettings(args: Args, env: Env) {
    && CloudIsRemote(args, env)
    && EndsRemote(CloudUrl(args, env).value, args, env)
    && (if Target(args, env).Some? then EndsRemote(Target(args, env).value, args, env)
        else !IsLocal(PoolerHost(args, env)))
  }

  function UrlOf(host: string): Url {
    Url("", "", host, 0, "", map[])
  }

  const A_DIRECT_HOST := "db.a.supabase.co"

  lemma {:induction false} DirectExample()
    ensures IsDirect(A_DIRECT_HOST) && !IsLocal(A_DIRECT_HOST)
  {
    var h := A_DIRECT_HOST;
    assert Lower(h) == h;
    assert h[..|DB_DOT|] == DB_DOT && h[|h| - |SUPABASE_CO|..] == SUPABASE_CO && h[3] == 'a';
    DirectIsNotLocal(A_DIRECT_HOST);
  }

  /** Every URL ends on a remote host exactly under these settings. */
  lemma {:induction false} RemoteIff(args: Args, env: Env)
    requires Settles(env)
    ensures (forall url :: !IsLocal(Prepared(url, args, env).host)) <==> RemoteSettings(args, env)
  {
    var local, direct := UrlOf("localhost"), UrlOf(A_DIRECT_HOST);
    LocalNames();
    DirectExample();
    RemoteFrom(local, args, env);
    RemoteFrom(direct, args, env);
    hide IsLocal, IsDirect, Prepared, CloudUrl, Target, EndsRemote;
    if RemoteSettings(args, env) {
      forall url ensures !IsLocal(Prepared(url, args, env).host) {
        RemoteFrom(url, args, env);
      }
    } else {
      assert IsLocal(Prepared(local, args, env).host) || IsLocal(Prepared(direct, args, env).host);
    }
  }

  lemma {:induction false} RemoteFrom(url: Url, args: Args, env: Env)
    requires Settles(env)
    ensures !IsLocal(Prepared(url, args, env).host) ==
              if IsLocal(url.host) then CloudIsRemote(args, env) && EndsRemote(CloudUrl(args, env).value, args, env)
              else if IsDirect(url.host) then
                if Target(args, env).Some? then EndsRemote(Target(args, env).value, args, env)
                else !IsLocal(PoolerHost(args, env))
              else true
  {
    var inner := Inner(args, env);
    PreparedFrom(url, args, env);
    InnerFixed(args, env);
    LocalNames();
    FinishedLocality(url, args, env);
    if IsDirect(url.host) { DirectIsNotLocal(url.host); }
    hide IsDirect, IsLocal, Prepared, Finished, CloudUrl, Target, Landed;
    if IsLocal(url.host) && CloudIsRemote(args, env) {
      FinishedLocality(Landed(CloudUrl(args, env).value, inner, env), inner, env);
    } else if IsDirect(url.host) && Target(args, env).Some? {
      FinishedLocality(Landed(Target(args, env).value, inner, env), inner, env);
    }
  }

  /** With a remote cloud URL configured, for this call and in the environment
      alone, the outcome is never a local host. */
  lemma {:induction false} RemoteWhenConfigured(args: Args, env: Env)
    requires Settles(env) && CloudIsRemote(args, env) && CloudIsRemote(Inner(args, env), env)
    requires !IsLocal(PoolerHost(args, env))
    ensures forall url :: !IsLocal(Prepared(url, args, env).host)
  {
    RemoteEverywhere(args, env);
    hide RemoteSettings, IsLocal, Prepared;
    RemoteIff(args, env);
  }

  lemma {:induction false} RemoteEverywhere(args: Args, env: Env)
    requires Settles(env) && CloudIsRemote(args, env) && CloudIsRemote(Inner(args, env), env)
    requires !IsLocal(PoolerHost(args, env))
    ensures RemoteSettings(args, env)
  {
    hide IsLocal, IsDirect, IsPooler;
  }

  predicate NoUrls(env: Env) {
    env.poolerUrl.None? && env.dbUrl.None? && env.controlPlaneUrl.None? && env.databaseUrl.None?
  }

  /** With the settings given by arguments alone a remote cloud URL is enough
      exactly when the URL a direct host is sent to is remote as well. */
  lemma {:induction false} RemoteByArgumentsIff(args: Args, env: Env)
    requires NoUrls(env) && CloudIsRemote(args, env) && !IsLocal(PoolerHost(args, env))
    ensures (forall url :: !IsLocal(Prepared(url, args, env).host))
       <==> Target(args, env).None? || !IsLocal(Target(args, env).value.host)
  {
    SettingsByArguments(args, env);
    hide RemoteSettings, IsLocal, IsPooler, Prepared, Target, CloudIsRemote;
    RemoteIff(args, env);
  }

  lemma {:induction false} SettingsByArguments(args: Args, env: Env)
    requires NoUrls(env) && CloudIsRemote(args, env) && !IsLocal(PoolerHost(args, env))
    ensures RemoteSettings(args, env) <==> Target(args, env).None? || !IsLocal(Target(args, env).value.host)
  {
    var inner, target := Inner(args, env), Target(args, env);
    if target.Some? && IsDirect(target.value.host) { DirectIsNotLocal(target.value.host); }
    assert Target(inner, env).None? && CloudUrl(inner, env).None?;
    hide IsLocal, IsDirect, IsPooler, PoolerCandidate, Target;
  }

  /** A remote cloud URL alone is not enough: a local URL goes to the direct host
      given by argument, and from there to the local pooler URL of the environment. */
  lemma {:induction false} RemoteCloudIsNotEnough()
    ensures var env := Env(Some(UrlOf("localhost")), "", None, None, None);
            var args := Args(None, Some(UrlOf(A_DIRECT_HOST)), "");
            && Settles(env) && CloudIsRemote(args, env) && !IsLocal(PoolerHost(args, env))
            && IsLocal(Prepared(UrlOf("localhost"), args, env).host)
  {
    var env := Env(Some(UrlOf("localhost")), "", None, None, None);
    var args := Args(None, Some(UrlOf(A_DIRECT_HOST)), "");
    hide IsLocal, IsDirect, IsPooler, Prepared, Nth, BeforePercent, Lower;
    DirectExample();
    LocalNames();
    if IsDirect("localhost") { DirectIsNotLocal("localhost"); }
    assert Settles(env);
    RemoteFrom(UrlOf("localhost"), args, env);
  }

  // ---------------------------------------------------------------- preparing twice

  /** The outcome of a recursive call from v. */
  function End(v: Url, args: Args, env: Env): Url {
    var inner := Inner(args, env);
    Finished(Landed(v, inner, env), inner, env)
  }

  /** The settings that tear preparing apart from preparing again: a remote
      pooler URL that names no pooler host, for local URLs, beside a fallback that
      names one, for direct URLs, with different ends; and the first of them ends
      on a direct host, or the second on a local one. */
  predicate Torn(args: Args, env: Env) {
    var p, f, inner := PoolerUrl(args, env), Fallback(args, env), Inner(args, env);
    && p.Some? && !IsPooler(p.value.host) && !IsLocal(p.value.host)
    && f.Some? && IsPooler(f.value.host)
    && End(p.value, args, env) != End(f.value, args, env)
    && (|| (IsDirect(Landed(p.value, inner, env).host) && PoolerHost(args, env) == "")
        || IsLocal(Landed(f.value, inner, env).host))
  }

  predicate SameTwice(url: Url, args: Args, env: Env)
    requires Settles(env)
  {
    Prepared(Prepared(url, args, env), args, env) == Prepared(url, args, env)
  }

  /** The same, over the two URLs a call can be sent to. */
  predicate EndsAgree(args: Args, env: Env) {
    var c, t := CloudUrl(args, env), Target(args, env);
    CloudIsRemote(args, env) && t.Some? ==>
      var a, b := End(c.value, args, env), End(t.value, args, env);
      a == b || (!IsDirect(a.host) && !IsLocal(b.host))
  }

  lemma {:induction false} FinishedKind(url: Url, args: Args, env: Env)
    requires PlainPoolerHost(args, env)
    ensures var r := Finished(url, args, env);
            && (IsLocal(r.host) <==> IsLocal(url.host))
            && (IsDirect(r.host) <==> IsDirect(url.host) && PoolerHost(args, env) == "")
            && Finished(r, args, env) == r
  {
    FinishedTwice(url, args, env);
    FinishedLocality(url, args, env);
    LocalNames();
    LocalIsNoPooler();
    if IsDirect(url.host) { DirectIsNotLocal(url.host); }
    hide IsLocal, IsPooler, IsDirect;
  }

  lemma {:induction false} TornIsDisagreement(args: Args, env: Env)
    requires Settles(env) && PlainPoolerHost(args, env)
    ensures Torn(args, env) <==> !EndsAgree(args, env)
  {
    var p, f, inner := PoolerUrl(args, env), Fallback(args, env), Inner(args, env);
    InnerFixed(args, env);
    if p.Some? && f.Some? {
      FinishedKind(Landed(p.value, inner, env), inner, env);
      FinishedKind(Landed(f.value, inner, env), inner, env);
    }
    hide IsLocal, IsPooler, IsDirect, Finished, Landed;
  }

  /** Finishing depends on the settings through the pooler host only. */
  lemma {:induction false} FinishedByHost(url: Url, args: Args, env: Env)
    ensures Finished(url, Inner(args, env), env) == Finished(url, args, env)
  {
    InnerFixed(args, env);
    hide IsLocal, IsPooler, IsDirect;
  }

  lemma {:induction false} TwiceFrom(url: Url, args: Args, env: Env)
    requires Settles(env) && PlainPoolerHost(args, env)
    ensures var c, t := CloudUrl(args, env), Target(args, env);
            SameTwice(url, args, env) <==>
              if IsLocal(url.host) && CloudIsRemote(args, env) then
                var a := End(c.value, args, env);
                IsDirect(a.host) && t.Some? ==> a == End(t.value, args, env)
              else if IsDirect(url.host) && t.Some? then
                var b := End(t.value, args, env);
                IsLocal(b.host) && CloudIsRemote(args, env) ==> b == End(c.value, args, env)
              else true
  {
    var r, inner := Prepared(url, args, env), Inner(args, env);
    PreparedFrom(url, args, env);
    PreparedFrom(r, args, env);
    InnerFixed(args, env);
    FinishedKind(url, args, env);
    if IsDirect(url.host) { DirectIsNotLocal(url.host); }
    if IsDirect(r.host) { DirectIsNotLocal(r.host); }
    hide IsLocal, IsPooler, IsDirect, Finished, Landed, Prepared, CloudUrl, Target;
    if IsLocal(url.host) && CloudIsRemote(args, env) {
      EndIsFinal(CloudUrl(args, env).value, args, env);
    } else if IsDirect(url.host) && Target(args, env).Some? {
      EndIsFinal(Target(args, env).value, args, env);
    }
  }

  lemma {:induction false} EndIsFinal(v: Url, args: Args, env: Env)
    requires PlainPoolerHost(args, env)
    ensures var r := End(v, args, env); Finished(r, args, env) == r
  {
    var x := Landed(v, Inner(args, env), env);
    FinishedByHost(x, args, env);
    FinishedTwice(x, args, env);
    hide Landed, Finished;
  }

  /** Preparing twice is preparing once, for every URL, exactly when the settings
      are not torn. */
  lemma {:induction false} IdempotentIff(args: Args, env: Env)
    requires Settles(env) && PlainPoolerHost(args, env)
    ensures (forall url :: SameTwice(url, args, env)) <==> !Torn(args, env)
  {
    var local, direct := UrlOf("localhost"), UrlOf(A_DIRECT_HOST);
    LocalNames();
    DirectExample();
    TornIsDisagreement(args, env);
    TwiceFrom(local, args, env);
    TwiceFrom(direct, args, env);
    hide IsLocal, IsDirect, SameTwice, Torn, End, CloudUrl, Target, CloudIsRemote;
    if EndsAgree(args, env) {
      forall url ensures SameTwice(url, args, env) {
        TwiceFrom(url, args, env);
      }
    } else {
      assert !SameTwice(local, args, env) || !SameTwice(direct, args, env);
    }
  }

  /** So it is with the settings left to the environment. */
  lemma {:induction false} PreparingTwice(args: Args, env: Env)
    requires Settles(env) && Defaults(args) && PlainPoolerHost(args, env)
    ensures forall url :: SameTwice(url, args, env)
  {
    IdempotentIff(args, env);
    assert !Torn(args, env) by {
      TornNeedsArguments(args, env);
    }
    hide SameTwice, Torn;
  }

  lemma {:induction false} TornNeedsArguments(args: Args, env: Env)
    requires Settles(env) && Defaults(args) && PlainPoolerHost(args, env)
    ensures !Torn(args, env)
  {
    var inner, p, f := Inner(args, env), env.poolerUrl, env.dbUrl;
    SettledHosts(inner, env);
    if f.Some? && IsDirect(f.value.host) { DirectIsNotPooler(f.value.host); }
    hide IsLocal, IsPooler, IsDirect, Finished;
  }

  /** And whenever the configured pooler URL names a pooler host, or a local one. */
  lemma {:induction false} PreparingTwiceWithPooler(args: Args, env: Env)
    requires Settles(env) && PlainPoolerHost(args, env)
    requires var p := PoolerUrl(args, env); p.None? || IsPooler(p.value.host) || IsLocal(p.value.host)
    ensures forall url :: SameTwice(url, args, env)
  {
    IdempotentIff(args, env);
    hide SameTwice, IsLocal, IsPooler, IsDirect, Landed, End;
  }

  lemma {:induction false} PoolerIsPlain()
    ensures Lower(POOLER) == POOLER && BeforePercent(POOLER) == POOLER && POOLER[|POOLER| - 1] == 'm'
  {
    hide Lower, BeforePercent;
    LowerIsSmallForm(POOLER, POOLER);
    PlainBeforePercent(POOLER);
  }

  lemma {:induction false} EndsInM(h: string)
    requires h != "" && h[|h| - 1] == 'm'
    ensures !LocalName(h) && !EndsWith(h, ".local")
  {
    if EndsWith(h, ".local") {
      LastOf(h, ".local");
    }
  }

  lemma {:induction false} PoolerExample()
    ensures IsPooler(POOLER) && !IsLocal(POOLER)
  {
    hide Lower, BeforePercent, OccursAt, EndsWith, LocalName;
    PoolerIsPlain();
    EndsInM(POOLER);
    OccursBetween("", POOLER, "");
    assert "" + POOLER + "" == POOLER;
    assert OccursAt(Lower(POOLER), POOLER, 0);
  }

  /** A torn setting: the direct pooler URL is taken on the first round and left
      for the fallback's pooler on the second. */
  lemma {:induction false} ArgumentsCanDisagree()
    ensures var env := Env(None, "", None, None, None);
            var args := Args(Some(UrlOf(POOLER)), Some(UrlOf(A_DIRECT_HOST)), "");
            && Settles(env) && Torn(args, env)
            && !SameTwice(UrlOf("localhost"), args, env)
  {
    var env := Env(None, "", None, None, None);
    var args := Args(Some(UrlOf(POOLER)), Some(UrlOf(A_DIRECT_HOST)), "");
    DirectExample();
    PoolerExample();
    LocalNames();
    if IsDirect(POOLER) { DirectIsNotPooler(POOLER); }
    if IsDirect("") { DirectIsNotLocal(""); }
    DirectIsNotPooler(A_DIRECT_HOST);
    assert !IsDirect("");
    hide IsLocal, IsDirect, IsPooler;
    assert Settles(env);
    TwiceFrom(UrlOf("localhost"), args, env);
    HostStays(UrlOf(POOLER), Inner(args, env), env);
    HostStays(UrlOf(A_DIRECT_HOST), Inner(args, env), env);
    hide Finished, SameTwice, Nth, Settles;
  }

  /** An environment in which a call never ends. */
  lemma {:induction false} NeverEnding(n: nat)
    ensures var env := Env(Some(UrlOf(A_DIRECT_HOST)), "", None, None, None);
            Nth(UrlOf(A_DIRECT_HOST), Args(None, None, ""), env, n).Some?
  {
    DirectExample();
    hide IsDirect, IsLocal;
    GoesRound(Env(Some(UrlOf(A_DIRECT_HOST)), "", None, None, None), UrlOf(A_DIRECT_HOST), n);
  }
}
