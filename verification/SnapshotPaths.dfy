/** Which files a config snapshot covers (captureConfigSnapshot in
    cmd/gc/api_state.go): the named paths, through any chain of links. */
module SnapshotPaths {
  import opened Prelude
  import opened ConfigRollback

  /** city.toml, the site file, and every agent.toml that is a link. */
  lemma CapturedPathsAre(fs: Fs, city: Path, p: Path)
    ensures p in CapturePaths(fs, city) <==>
            || p == city + ["city.toml"]
            || p == city + [".gc", "site.toml"]
            || (p in fs && fs[p].Link? && exists name :: p == city + ["agents", name, "agent.toml"])
  {
    if IsAgentToml(city, p) {
      var name := p[|city| + 1];
      assert p[..|city| + 1] == city + ["agents"];
      assert p == city + ["agents", name, "agent.toml"];
    }
    if name :| p == city + ["agents", name, "agent.toml"] {
      assert p[..|city| + 1] == city + ["agents"];
    }
  }

  /** Each path of the chain is a link to the next; the last is no link. */
  ghost predicate LinkChain(fs: Fs, c: seq<Path>) {
    && c != [] && !(c[|c| - 1] in fs && fs[c[|c| - 1]].Link?)
    && forall i | 0 <= i < |c| - 1 :: c[i] in fs && fs[c[i]] == Link(c[i + 1])
  }

  lemma {:induction false} ResolvedChain(fs: Fs, p: Path, seen: set<Path>) returns (c: seq<Path>)
    requires Resolve(fs, p, seen).Some?
    ensures LinkChain(fs, c) && c[0] == p && c[|c| - 1] == Resolve(fs, p, seen).value
    decreases fs.Keys - seen
  {
    if p in fs && fs[p].Link? {
      var rest := ResolvedChain(fs, fs[p].target, seen + {p});
      c := [p] + rest;
    } else {
      c := [p];
    }
  }

  lemma {:induction false} RepeatsForEver(fs: Fs, c: seq<Path>, i: nat, j: nat, k: nat)
    requires LinkChain(fs, c) && i < j && j + k < |c| && c[i] == c[j]
    ensures c[i + k] == c[j + k]
  {
    if k > 0 {
      RepeatsForEver(fs, c, i, j, k - 1);
      assert fs[c[i + k - 1]] == Link(c[i + k]) && fs[c[j + k - 1]] == Link(c[j + k]);
    }
  }

  lemma ChainNeverRepeats(fs: Fs, c: seq<Path>)
    requires LinkChain(fs, c)
    ensures Distinct(c)
  {
    forall i, j | 0 <= i < j < |c| ensures c[i] != c[j] {
      var k := |c| - 1 - j;
      assert fs[c[i + k]] == Link(c[i + k + 1]);
      if c[i] == c[j] {
        RepeatsForEver(fs, c, i, j, k);
      }
    }
  }

  lemma {:induction false} ChainResolves(fs: Fs, c: seq<Path>, seen: set<Path>)
    requires LinkChain(fs, c) && Distinct(c) && forall i | 0 <= i < |c| :: c[i] !in seen
    ensures Resolve(fs, c[0], seen) == Some(c[|c| - 1])
    decreases |c|
  {
    if |c| > 1 {
      var rest := c[1..];
      forall i | 0 <= i < |rest| - 1 ensures rest[i] in fs && fs[rest[i]] == Link(rest[i + 1]) {
        assert rest[i] == c[i + 1] && fs[c[i + 1]] == Link(c[i + 2]);
      }
      forall i | 0 <= i < |rest| ensures rest[i] !in seen + {c[0]} {
        assert rest[i] == c[i + 1];
      }
      ChainResolves(fs, rest, seen + {c[0]});
    }
  }

  /** A path resolves exactly to the end of a chain of links from it. */
  lemma ResolvesExactlyWhen(fs: Fs, p: Path, q: Path)
    ensures Resolve(fs, p, {}) == Some(q) <==> exists c :: LinkChain(fs, c) && c[0] == p && c[|c| - 1] == q
  {
    if Resolve(fs, p, {}) == Some(q) {
      var c := ResolvedChain(fs, p, {});
    }
    if c :| LinkChain(fs, c) && c[0] == p && c[|c| - 1] == q {
      ChainNeverRepeats(fs, c);
      ChainResolves(fs, c, {});
    }
  }

  /** A reader sees exactly the bytes of the file at the end of such a chain. */
  lemma ReadsExactlyWhen(fs: Fs, p: Path, bytes: string)
    ensures ReadThrough(fs, p) == Some(bytes) <==>
            exists c :: LinkChain(fs, c) && c[0] == p && c[|c| - 1] in fs && fs[c[|c| - 1]] == File(bytes)
  {
    if ReadThrough(fs, p) == Some(bytes) {
      var c := ResolvedChain(fs, p, {});
    }
    if c :| LinkChain(fs, c) && c[0] == p && c[|c| - 1] in fs && fs[c[|c| - 1]] == File(bytes) {
      ChainNeverRepeats(fs, c);
      ChainResolves(fs, c, {});
    }
  }

  /** The tree that is captured and restored is everything below agents. */
  lemma TreeIs(fs: Fs, city: Path, p: Path)
    ensures p in TreeOf(fs, AgentsDir(city)) <==> p in fs && exists rest :: rest != [] && p == city + ["agents"] + rest
    ensures p in TreeOf(fs, AgentsDir(city)) ==> TreeOf(fs, AgentsDir(city))[p] == fs[p]
  {
    var dir := city + ["agents"];
    if dir < p {
      assert p == dir + p[|dir|..];
    }
    if rest :| rest != [] && p == city + ["agents"] + rest {
      assert p[..|dir|] == dir;
    }
  }
}
