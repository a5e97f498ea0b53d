/** The proxy variables of a project's container (internal/k8sdriver/deployer.go, withProxyEnv). */
module ProxyEnv {

  datatype EnvVar = EnvVar(name: string, value: string)

  const PROXY_NAMES := ["HTTPS_PROXY", "HTTP_PROXY", "https_proxy", "http_proxy", "NO_PROXY", "no_proxy"]

  predicate IsProxyName(name: string) { name in PROXY_NAMES }

  /** The variables the platform does not own, in their order. */
  function Others(env: seq<EnvVar>): seq<EnvVar> {
    if env == [] then []
    else Others(env[..|env| - 1]) + if IsProxyName(env[|env| - 1].name) then [] else [env[|env| - 1]]
  }

  /** Both spellings of both proxies, and of the exceptions. */
  function ProxyVars(proxyUrl: string, noProxy: string): seq<EnvVar> {
    if proxyUrl == "" then []
    else [EnvVar("HTTPS_PROXY", proxyUrl), EnvVar("HTTP_PROXY", proxyUrl),
          EnvVar("https_proxy", proxyUrl), EnvVar("http_proxy", proxyUrl),
          EnvVar("NO_PROXY", noProxy), EnvVar("no_proxy", noProxy)]
  }

  function WithProxy(env: seq<EnvVar>, proxyUrl: string, noProxy: string): seq<EnvVar> {
    Others(env) + ProxyVars(proxyUrl, noProxy)
  }

  method WithProxyEnv(env: seq<EnvVar>, proxyUrl: string, noProxy: string) returns (out: seq<EnvVar>)
    ensures out == WithProxy(env, proxyUrl, noProxy)
  {
    out := [];
    for i := 0 to |env|
      invariant out == Others(env[..i])
    {
      assert env[..i + 1][..i] == env[..i];
      var skip := false;
      for k := 0 to |PROXY_NAMES|
        invariant skip <==> env[i].name in PROXY_NAMES[..k]
      {
        if env[i].name == PROXY_NAMES[k] {
          skip := true;
        }
      }
      assert PROXY_NAMES[..|PROXY_NAMES|] == PROXY_NAMES;
      if !skip {
        out := out + [env[i]];
      }
    }
    assert env[..|env|] == env;
    if proxyUrl == "" {
      return;
    }
    out := out + [EnvVar("HTTPS_PROXY", proxyUrl), EnvVar("HTTP_PROXY", proxyUrl),
                  EnvVar("https_proxy", proxyUrl), EnvVar("http_proxy", proxyUrl),
                  EnvVar("NO_PROXY", noProxy), EnvVar("no_proxy", noProxy)];
  }

  lemma {:induction false} OthersAppend(a: seq<EnvVar>, b: seq<EnvVar>)
    ensures Others(a + b) == Others(a) + Others(b)
  {
    if b == [] {
      assert a + b == a;
    } else {
      OthersAppend(a, b[..|b| - 1]);
      assert (a + b)[..|a + b| - 1] == a + b[..|b| - 1];
    }
  }

  lemma {:induction false} OthersAre(env: seq<EnvVar>)
    ensures forall v :: v in Others(env) <==> v in env && !IsProxyName(v.name)
  {
    hide IsProxyName;
    if env != [] {
      OthersAre(env[..|env| - 1]);
      assert env == env[..|env| - 1] + [env[|env| - 1]];
    }
  }

  lemma {:induction false} NothingStripped(env: seq<EnvVar>)
    requires forall v | v in env :: !IsProxyName(v.name)
    ensures Others(env) == env
  {
    hide IsProxyName;
    if env != [] {
      var front, last := env[..|env| - 1], env[|env| - 1];
      assert !IsProxyName(last.name) by { assert last in env; }
      forall v | v in front ensures !IsProxyName(v.name) {
        assert v in env;
      }
      NothingStripped(front);
      assert Others(env) == front + [last];
    }
  }

  lemma {:induction false} OwnedVanish(vars: seq<EnvVar>)
    requires forall v | v in vars :: IsProxyName(v.name)
    ensures Others(vars) == []
  {
    hide IsProxyName;
    if vars != [] {
      var front, last := vars[..|vars| - 1], vars[|vars| - 1];
      assert IsProxyName(last.name) by { assert last in vars; }
      forall v | v in front ensures IsProxyName(v.name) {
        assert v in vars;
      }
      OwnedVanish(front);
    }
  }

  lemma ProxyVarsAreOwned(proxyUrl: string, noProxy: string)
    ensures forall v | v in ProxyVars(proxyUrl, noProxy) :: IsProxyName(v.name)
  {
    assert PROXY_NAMES[0] in PROXY_NAMES && PROXY_NAMES[1] in PROXY_NAMES && PROXY_NAMES[2] in PROXY_NAMES;
    assert PROXY_NAMES[3] in PROXY_NAMES && PROXY_NAMES[4] in PROXY_NAMES && PROXY_NAMES[5] in PROXY_NAMES;
  }

  /** Only the latest setting counts: applying another one first leaves no trace, and the same one twice is once. */
  lemma LatestSettingWins(env: seq<EnvVar>, first: string, second: string, noProxy: string)
    ensures WithProxy(WithProxy(env, first, noProxy), second, noProxy) == WithProxy(env, second, noProxy)
  {
    ProxyVarsAreOwned(first, noProxy);
    OwnedVanish(ProxyVars(first, noProxy));
    OthersAppend(Others(env), ProxyVars(first, noProxy));
    OthersAre(env);
    NothingStripped(Others(env));
    hide Others, ProxyVars, IsProxyName;
    assert Others(env) + [] == Others(env);
  }

  /** The names that carry the URL; the other two carry the exceptions. */
  predicate CarriesUrl(name: string) { name in {"HTTPS_PROXY", "HTTP_PROXY", "https_proxy", "http_proxy"} }

  /**
   With no URL not one proxy variable is left; with one, each of the six is there with its value, the URL or the
   exceptions, and with no other.
   */
  lemma ProxyVariablesAfter(env: seq<EnvVar>, proxyUrl: string, noProxy: string, v: EnvVar)
    requires IsProxyName(v.name)
    ensures v in WithProxy(env, proxyUrl, noProxy)
            <==> proxyUrl != "" && v.value == if CarriesUrl(v.name) then proxyUrl else noProxy
  {
    NamesDiffer();
    var names, vars := PROXY_NAMES, ProxyVars(proxyUrl, noProxy);
    OthersAre(env);
    hide Others;
    assert v in WithProxy(env, proxyUrl, noProxy) <==> v in vars;
    if proxyUrl != "" {
      assert forall k | 0 <= k < 6 :: vars[k].name == names[k];
      var k :| 0 <= k < |names| && names[k] == v.name;
      assert vars[k] in vars;
    }
  }

  lemma NamesDiffer()
    ensures !CarriesUrl("NO_PROXY") && !CarriesUrl("no_proxy")
    ensures forall j, k | 0 <= j < k < |PROXY_NAMES| :: PROXY_NAMES[j] != PROXY_NAMES[k]
  {
    assert "NO_PROXY"[0] == 'N' && "no_proxy"[0] == 'n' && "HTTPS_PROXY"[0] == 'H' && "https_proxy"[0] == 'h';
    assert "HTTP_PROXY"[0] == 'H' && "http_proxy"[0] == 'h';
    assert |"HTTPS_PROXY"| == 11 && |"HTTP_PROXY"| == 10 && |"https_proxy"| == 11 && |"http_proxy"| == 10;
  }
}
