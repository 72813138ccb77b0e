/** Key formats of checkpoints, state variables and the in-memory cache
    (crates/workflow_engine/src/context.rs:83-94 and 309-315). */
module Keys {

  function CheckpointKey(name: string): string { "wf_" + name }

  function StateKey(name: string): string { "wf_state_" + name }

  function SessionStateKey(name: string): string { "wf_sess_state_" + name }

  function CacheKey(caseKey: string, stepKey: string): string { caseKey + ":" + stepKey }

  function SessionCacheKey(sessionId: string, stepKey: string): string { "session:" + sessionId + ":" + stepKey }

  /** The formats, on the names the program's own tests use and on a session variable. */
  lemma FormatsAre()
    ensures CheckpointKey("step1") == "wf_step1" && StateKey("foo") == "wf_state_foo"
    ensures CacheKey("ck_key", "wf_step1") == "ck_key:wf_step1"
    ensures SessionStateKey("foo") == "wf_sess_state_foo"
    ensures SessionCacheKey("s", "wf_sess_state_foo") == "session:s:wf_sess_state_foo"
  {
  }

  /** A checkpoint and a state variable share a key exactly when the checkpoint's name is
      the variable's name behind `state_`. */
  lemma CheckpointMeetsStateIff(step: string, variable: string)
    ensures CheckpointKey(step) == StateKey(variable) <==> step == "state_" + variable
  {
    assert StateKey(variable) == CheckpointKey("state_" + variable);
    if CheckpointKey(step) == StateKey(variable) {
      assert step == CheckpointKey(step)[3..] == CheckpointKey("state_" + variable)[3..] == "state_" + variable;
    }
  }

  lemma CheckpointKeyInjective(a: string, b: string)
    requires CheckpointKey(a) == CheckpointKey(b)
    ensures a == b
  {
    assert a == CheckpointKey(a)[3..] == CheckpointKey(b)[3..] == b;
  }

  lemma CacheKeyInjective(caseKey: string, a: string, b: string)
    requires CacheKey(caseKey, a) == CacheKey(caseKey, b)
    ensures a == b
  {
    var n := |caseKey| + 1;
    assert a == CacheKey(caseKey, a)[n..] == CacheKey(caseKey, b)[n..] == b;
  }

  lemma SessionCacheKeyInjective(sessionId: string, a: string, b: string)
    requires SessionCacheKey(sessionId, a) == SessionCacheKey(sessionId, b)
    ensures a == b
  {
    var n := |"session:" + sessionId + ":"|;
    assert a == SessionCacheKey(sessionId, a)[n..] == SessionCacheKey(sessionId, b)[n..] == b;
  }

  /** Some case-scoped entry and some session variable share a cache key. */
  ghost predicate CacheCollides(caseKey: string, sessionId: string) {
    exists step, variable :: CacheKey(caseKey, CheckpointKey(step)) == SessionCacheKey(sessionId, SessionStateKey(variable))
  }

  /** One of the two fixed beginnings of cache keys is a prefix of the other: a check on
      the case key and the session id alone. */
  predicate Overlap(caseKey: string, sessionId: string) {
    var a, b := CacheKey(caseKey, "wf_"), SessionCacheKey(sessionId, "wf_sess_state_");
    a <= b || b <= a
  }

  /** Cache keys in terms of their fixed beginnings. */
  lemma CacheKeysSplit(caseKey: string, sessionId: string, step: string, variable: string)
    ensures CacheKey(caseKey, CheckpointKey(step)) == CacheKey(caseKey, "wf_") + step
    ensures SessionCacheKey(sessionId, SessionStateKey(variable)) == SessionCacheKey(sessionId, "wf_sess_state_") + variable
  {
  }

  lemma CommonExtensionIff(a: string, b: string)
    ensures (exists x, y :: a + x == b + y) <==> a <= b || b <= a
  {
    if x, y :| a + x == b + y {
      if |a| <= |b| {
        assert a == (a + x)[..|a|] == b[..|a|];
      } else {
        assert b == (b + y)[..|b|] == a[..|b|];
      }
    }
    if a <= b {
      assert a + b[|a|..] == b + "";
    }
    if b <= a {
      assert b + a[|b|..] == a + "";
    }
  }

  lemma CacheCollidesIff(caseKey: string, sessionId: string)
    ensures CacheCollides(caseKey, sessionId) <==> Overlap(caseKey, sessionId)
  {
    var a, b := CacheKey(caseKey, "wf_"), SessionCacheKey(sessionId, "wf_sess_state_");
    hide CacheKey, SessionCacheKey, CheckpointKey, SessionStateKey;
    CommonExtensionIff(a, b);
    forall step, variable
      ensures CacheKey(caseKey, CheckpointKey(step)) == SessionCacheKey(sessionId, SessionStateKey(variable))
              <==> a + step == b + variable
    {
      CacheKeysSplit(caseKey, sessionId, step, variable);
    }
  }

  /** Case keys that do not begin with the word `session` never collide. */
  lemma NoCollisionOutsideSession(caseKey: string, sessionId: string)
    requires !("session" <= caseKey)
    ensures !CacheCollides(caseKey, sessionId)
  {
    CacheCollidesIff(caseKey, sessionId);
    var a, b := CacheKey(caseKey, "wf_"), SessionCacheKey(sessionId, "wf_sess_state_");
    var word := "session";
    assert exists i :: 0 <= i < |a| && i < |b| && a[i] != b[i] by {
      if |caseKey| >= 7 {
        assert caseKey[..7] != word;
        var i :| 0 <= i < 7 && caseKey[i] != word[i];
        assert a[i] == caseKey[i] && b[i] == word[i];
      } else {
        assert a[|caseKey|] == ':' && b[|caseKey|] == word[|caseKey|];
      }
    }
  }

  /** Leaving out only keys that begin with `session:` is not enough: the case named
      `session` collides with session `wf_a`. */
  lemma CaseNamedSessionCollides()
    ensures !("session:" <= "session") && CacheCollides("session", "wf_a")
  {
    assert CacheKey("session", "wf_") == "session:wf_";
    assert SessionCacheKey("wf_a", "wf_sess_state_") == "session:wf_a:wf_sess_state_";
    CacheCollidesIff("session", "wf_a");
  }
}
