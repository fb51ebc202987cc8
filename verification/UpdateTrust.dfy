/**
 What a build must show before it reaches the install path, told from the bytes
 of its digest and from what its two probes answer.
 */
module UpdateTrust {
  import opened Results
  import opened Update
  import opened UpdateLaws
  import opened Text

  // ---------------- digests ---------------------------------------------

  /** The same character, or the same letter of the alphabet in the other case. */
  predicate SameLetter(a: char, b: char) {
    || a == b
    || ('A' <= a <= 'Z' && b as int == a as int + 32)
    || ('A' <= b <= 'Z' && a as int == b as int + 32)
  }

  lemma LettersExactly(a: char, b: char)
    ensures LowerChar(a) == LowerChar(b) <==> SameLetter(a, b)
  {
  }

  /** Two digests are the same exactly when they are so letter by letter. */
  lemma DigestsExactly(a: string, b: string)
    ensures SameDigest(a, b) <==> |a| == |b| && forall i | 0 <= i < |a| :: SameLetter(a[i], b[i])
  {
    hide LowerChar, SameLetter;
    if |a| == |b| {
      forall i | 0 <= i < |a| ensures LowerChar(a[i]) == LowerChar(b[i]) <==> SameLetter(a[i], b[i]) {
        LettersExactly(a[i], b[i]);
      }
      assert forall i | 0 <= i < |a| :: LowerCase(a)[i] == LowerChar(a[i]) && LowerCase(b)[i] == LowerChar(b[i]);
    } else {
      assert |LowerCase(a)| != |LowerCase(b)|;
    }
  }

  // ---------------- probes ----------------------------------------------

  predicate StandsAt(s: string, sub: string, i: nat) {
    i + |sub| <= |s| && s[i..i + |sub|] == sub
  }

  lemma {:induction false} ContainsExactly(s: string, sub: string)
    ensures Contains(s, sub) <==> exists i: nat :: StandsAt(s, sub, i)
  {
    if |sub| <= |s| && s[..|sub|] == sub {
      assert StandsAt(s, sub, 0);
    } else if s != "" {
      ContainsExactly(s[1..], sub);
      if Contains(s[1..], sub) {
        var i: nat :| StandsAt(s[1..], sub, i);
        assert s[1..][i..i + |sub|] == s[i + 1..i + 1 + |sub|];
        assert StandsAt(s, sub, i + 1);
      }
      forall i: nat | StandsAt(s, sub, i) ensures Contains(s[1..], sub) {
        assert i > 0;
        assert s[1..][i - 1..i - 1 + |sub|] == s[i..i + |sub|];
        assert StandsAt(s[1..], sub, i - 1);
      }
    }
  }

  ghost predicate Says(stderr: string, message: string) {
    exists i: nat :: StandsAt(stderr, message, i)
  }

  /**
   Exactly which builds pass their preflight: those that accept the live config,
   and older ones that take `--check-config` for a path and then refuse a path
   that cannot exist. One that hangs or does not start never does.
   */
  lemma PreflightedExactly(env: Env, candidate: Bytes)
    ensures var probe, legacy := env.checkConfig(candidate), env.legacyProbe(candidate);
            Preflighted(env, candidate) <==>
            && probe.Exited?
            && (|| probe.ok
                || (&& Says(probe.stderr, "failed to load config from --check-config")
                    && legacy.Exited? && !legacy.ok && Says(legacy.stderr, "failed to load config from")))
  {
    hide Contains, StandsAt;
    var probe, legacy := env.checkConfig(candidate), env.legacyProbe(candidate);
    if probe.Exited? { ContainsExactly(probe.stderr, UNKNOWN_FLAG); }
    if legacy.Exited? { ContainsExactly(legacy.stderr, LOAD_FAILED); }
  }

  /**
   Whatever goes wrong: the bytes an install leaves at the path are those that
   were there, or a build whose digest is the manifest's letter by letter and
   which passed a probe.
   */
  lemma InstalledBytesAreVerified(env: Env, n: Node, fate: Fate)
    ensures var g := Installed(env, n, fate).files;
            g.path.Some? && g.path != n.files.path ==>
              && n.latest.Some? && env.asset.Some? && env.asset.value in n.latest.value.assets
              && var expected, digest := n.latest.value.assets[env.asset.value], env.sha256(g.path.value);
                 && |expected| == |digest| && (forall i | 0 <= i < |digest| :: SameLetter(expected[i], digest[i]))
                 && env.checkConfig(g.path.value).Exited?
                 && (env.checkConfig(g.path.value).ok || env.legacyProbe(g.path.value).Exited?)
  {
    var g := Installed(env, n, fate).files;
    hide Installed;
    InstallIsSafe(env, n, fate);
    if g.path.Some? && g.path != n.files.path {
      DigestsExactly(Wanted(env, n).value, env.sha256(g.path.value));
      PreflightedExactly(env, g.path.value);
    }
    hide SameDigest, SameLetter, Says;
  }
}
