/**
 Rolling out a deployment when its configuration changes. The hash of the two
 property texts is stored as an annotation; a changed hash also stamps the
 restart annotation. The hash is any function with non-empty results.
 */
module ConfigRollout {
  import opened Common

  const CHECKSUM := "sonataflow.org/checksum-config"
  const RESTARTED_AT := "sonataflow.org/restartedAt"
  const USER_PROPERTIES := "application.properties"

  type Hash = string -> string

  ghost predicate NeverEmpty(hash: Hash) {
    forall s :: hash(s) != ""
  }

  /** The two config maps of a workflow, and whether it runs in the dev profile. */
  datatype Config = Config(user: map<string, string>, managed: map<string, string>, dev: bool)

  function DataFrom(cm: map<string, string>, key: string): string {
    if key in cm then cm[key] else ""
  }

  function ManagedProperties(dev: bool): string {
    "application-" + (if dev then "dev" else "prod") + ".properties"
  }

  function CalculateHash(hash: Hash, c: Config): string {
    hash(DataFrom(c.user, USER_PROPERTIES) + "," + DataFrom(c.managed, ManagedProperties(c.dev)))
  }

  ghost predicate Injective(hash: Hash) {
    forall s, t :: hash(s) == hash(t) ==> s == t
  }

  /** The hash tells two configurations apart exactly if the user's and the managed text, joined by a comma, differ. */
  lemma HashTellsApart(hash: Hash, c: Config, d: Config)
    requires Injective(hash)
    ensures
      var ck, dk := if c.dev then "application-dev.properties" else "application-prod.properties",
                    if d.dev then "application-dev.properties" else "application-prod.properties";
      CalculateHash(hash, c) == CalculateHash(hash, d) <==>
      (if "application.properties" in c.user then c.user["application.properties"] else "")
      + "," + (if ck in c.managed then c.managed[ck] else "") ==
      (if "application.properties" in d.user then d.user["application.properties"] else "")
      + "," + (if dk in d.managed then d.managed[dk] else "")
  {
    ManagedKeys();
  }

  lemma ManagedKeys()
    ensures ManagedProperties(true) == "application-dev.properties"
    ensures ManagedProperties(false) == "application-prod.properties"
  {
  }

  /** Text moved across the comma, from the managed to the user's properties, is not noticed. */
  lemma MovedTextIsHidden(hash: Hash)
    ensures
      var c := Config(map["application.properties" := "a"], map["application-dev.properties" := "b,c"], true);
      var d := Config(map["application.properties" := "a,b"], map["application-dev.properties" := "c"], true);
      CalculateHash(hash, c) == CalculateHash(hash, d)
  {
    ManagedKeys();
    assert "a" + "," + "b,c" == "a,b" + "," + "c";
  }

  type Annotations = map<string, string>

  function Stored(a: Annotations): string {
    DataFrom(a, CHECKSUM)
  }

  function Stamp(a: Annotations): Option<string> {
    if RESTARTED_AT in a then Some(a[RESTARTED_AT]) else None
  }

  function Annotated(a: Annotations, checksum: string, now: string): Annotations {
    if checksum == Stored(a) then a
    else if Stored(a) != "" then a[CHECKSUM := checksum][RESTARTED_AT := now]
    else a[CHECKSUM := checksum]
  }

  // ------------------------------------------------------------------- runs

  /** One call, made while the deployment is paused or not. */
  datatype Call = Call(paused: bool, config: Config, now: string)

  function After(hash: Hash, start: Annotations, calls: seq<Call>): Annotations {
    if calls == [] then start
    else
      var a, last := After(hash, start, calls[..|calls| - 1]), calls[|calls| - 1];
      if last.paused then a else Annotated(a, CalculateHash(hash, last.config), last.now)
  }

  /** The hash an accepted call `i` found stored: that of the accepted call before it, or the initial one. */
  function Previous(hash: Hash, start: Annotations, calls: seq<Call>, i: nat): string
    requires i <= |calls|
  {
    if i == 0 then Stored(start)
    else if calls[i - 1].paused then Previous(hash, start, calls, i - 1)
    else CalculateHash(hash, calls[i - 1].config)
  }

  /** Call `i` was accepted with a hash other than the non-empty one before it. */
  predicate Changes(hash: Hash, start: Annotations, calls: seq<Call>, i: nat)
    requires i < |calls|
  {
    && !calls[i].paused
    && Previous(hash, start, calls, i) != ""
    && CalculateHash(hash, calls[i].config) != Previous(hash, start, calls, i)
  }

  /** The stamp after the first `i` calls: the time of the last change, or the initial stamp. */
  function LastStamp(hash: Hash, start: Annotations, calls: seq<Call>, i: nat): Option<string>
    requires i <= |calls|
  {
    if i == 0 then Stamp(start)
    else if Changes(hash, start, calls, i - 1) then Some(calls[i - 1].now)
    else LastStamp(hash, start, calls, i - 1)
  }

  /**
   Main theorem: after any run the stored checksum is the hash of the last
   accepted configuration, the stamp is that of the last change, and all other
   annotations are as they were.
   */
  lemma {:induction false} RunOutcome(hash: Hash, start: Annotations, calls: seq<Call>)
    ensures
      var after := After(hash, start, calls);
      && (if "sonataflow.org/checksum-config" in after then after["sonataflow.org/checksum-config"] else "") ==
         Previous(hash, start, calls, |calls|)
      && (if "sonataflow.org/restartedAt" in after then Some(after["sonataflow.org/restartedAt"]) else None) ==
         LastStamp(hash, start, calls, |calls|)
      && after - {"sonataflow.org/checksum-config", "sonataflow.org/restartedAt"} ==
         start - {"sonataflow.org/checksum-config", "sonataflow.org/restartedAt"}
  {
    assert CHECKSUM != RESTARTED_AT by { assert CHECKSUM[15] != RESTARTED_AT[15]; }
    if calls == [] {
    } else {
      var front := calls[..|calls| - 1];
      RunOutcome(hash, start, front);
      PreviousPrefix(hash, start, calls, |front|);
    }
  }

  lemma {:induction false} PreviousPrefix(hash: Hash, start: Annotations, calls: seq<Call>, i: nat)
    requires i < |calls|
    ensures Previous(hash, start, calls[..|calls| - 1], i) == Previous(hash, start, calls, i)
    ensures LastStamp(hash, start, calls[..|calls| - 1], i) == LastStamp(hash, start, calls, i)
  {
    if i == 0 {
    } else {
      PreviousPrefix(hash, start, calls, i - 1);
    }
  }

  lemma {:induction false} PausedChangesNothing(hash: Hash, start: Annotations, calls: seq<Call>)
    requires forall k :: 0 <= k < |calls| ==> calls[k].paused
    ensures After(hash, start, calls) == start
  {
    if calls == [] {
    } else {
      PausedChangesNothing(hash, start, calls[..|calls| - 1]);
    }
  }

  /** The first accepted call of a deployment without a checksum stores one, and restarts and changes nothing else. */
  lemma FirstCallNeverRestarts(hash: Hash, start: Annotations, calls: seq<Call>, i: nat)
    requires i < |calls| && NeverEmpty(hash)
    requires "sonataflow.org/checksum-config" in start ==> start["sonataflow.org/checksum-config"] == ""
    requires forall k :: 0 <= k < i ==> calls[k].paused
    ensures After(hash, start, calls[..i + 1]) ==
            if calls[i].paused then start
            else start["sonataflow.org/checksum-config" := CalculateHash(hash, calls[i].config)]
  {
    assert calls[..i + 1][..i] == calls[..i];
    PausedChangesNothing(hash, start, calls[..i]);
  }

  /** From the first accepted call on, a call restarts exactly when its hash differs from the last accepted one. */
  lemma LaterCallRestartsIff(hash: Hash, start: Annotations, calls: seq<Call>, k: nat, i: nat)
    requires NeverEmpty(hash) && k < i < |calls| && !calls[k].paused && !calls[i].paused
    requires forall j :: k < j < i ==> calls[j].paused
    ensures Changes(hash, start, calls, i) <==>
            CalculateHash(hash, calls[i].config) != CalculateHash(hash, calls[k].config)
  {
    LastAccepted(hash, start, calls, k, i);
  }

  lemma {:induction false} LastAccepted(hash: Hash, start: Annotations, calls: seq<Call>, k: nat, i: nat)
    requires k < i <= |calls| && !calls[k].paused
    requires forall j :: k < j < i ==> calls[j].paused
    ensures Previous(hash, start, calls, i) == CalculateHash(hash, calls[k].config)
  {
    if k < i - 1 { LastAccepted(hash, start, calls, k, i - 1); }
  }

  /**
   From the first accepted call on, a call that finds another joined text stamps
   its own time and stores its hash; with the same text it changes nothing.
   */
  lemma ChangedTextRestarts(hash: Hash, start: Annotations, calls: seq<Call>, k: nat, i: nat)
    requires NeverEmpty(hash) && k < i < |calls| && !calls[k].paused && !calls[i].paused
    requires forall j :: k < j < i ==> calls[j].paused
    ensures
      var before, after := After(hash, start, calls[..i]), After(hash, start, calls[..i + 1]);
      if CalculateHash(hash, calls[i].config) == CalculateHash(hash, calls[k].config) then after == before
      else
        && "sonataflow.org/checksum-config" in after && "sonataflow.org/restartedAt" in after
        && after["sonataflow.org/checksum-config"] == CalculateHash(hash, calls[i].config)
        && after["sonataflow.org/restartedAt"] == calls[i].now
  {
    var before := After(hash, start, calls[..i]);
    assert calls[..i + 1][..i] == calls[..i];
    assert Stored(before) == CalculateHash(hash, calls[k].config) by {
      RunOutcome(hash, start, calls[..i]);
      LastAccepted(hash, start, calls[..i], k, i);
    }
    AnnotatedOutcome(before, CalculateHash(hash, calls[i].config), calls[i].now);
  }

  lemma AnnotatedOutcome(a: Annotations, checksum: string, now: string)
    requires Stored(a) != ""
    ensures
      var after := Annotated(a, checksum, now);
      if checksum == Stored(a) then after == a
      else
        && "sonataflow.org/checksum-config" in after && after["sonataflow.org/checksum-config"] == checksum
        && "sonataflow.org/restartedAt" in after && after["sonataflow.org/restartedAt"] == now
  {
    assert CHECKSUM != RESTARTED_AT by { assert CHECKSUM[15] != RESTARTED_AT[15]; }
  }

  /** A change of the managed properties of the workflow's profile alone is rolled out. */
  lemma ManagedChangeRestarts(hash: Hash, start: Annotations, calls: seq<Call>, k: nat, i: nat)
    requires NeverEmpty(hash) && Injective(hash) && k < i < |calls| && !calls[k].paused && !calls[i].paused
    requires forall j :: k < j < i ==> calls[j].paused
    requires
      var c, d := calls[k].config, calls[i].config;
      var key := if c.dev then "application-dev.properties" else "application-prod.properties";
      && c.user == d.user && c.dev == d.dev
      && (if key in c.managed then c.managed[key] else "") != (if key in d.managed then d.managed[key] else "")
    ensures
      var after := After(hash, start, calls[..i + 1]);
      "sonataflow.org/restartedAt" in after && after["sonataflow.org/restartedAt"] == calls[i].now
  {
    var c, d := calls[k].config, calls[i].config;
    ManagedKeys();
    var text := DataFrom(c.user, USER_PROPERTIES) + ",";
    JoinedDiffer(text, DataFrom(c.managed, ManagedProperties(c.dev)), DataFrom(d.managed, ManagedProperties(d.dev)));
    assert CalculateHash(hash, c) != CalculateHash(hash, d);
    ChangedTextRestarts(hash, start, calls, k, i);
  }

  lemma JoinedDiffer(a: string, b: string, c: string)
    requires b != c
    ensures a + b != a + c
  {
    assert (a + b)[|a|..] == b && (a + c)[|a|..] == c;
  }

  // ------------------------------------------------------------- imperative

  class Deployment {
    var paused: bool
    var annotations: Annotations

    constructor (paused: bool, annotations: Annotations)
      ensures this.paused == paused && this.annotations == annotations
    {
      this.paused, this.annotations := paused, annotations;
    }
  }

  /** The call the operator makes: refused on a paused deployment, otherwise one step of a run. */
  method AnnotateDeploymentConfigChecksum(hash: Hash, deployment: Deployment, config: Config, now: string)
    returns (ok: bool)
    modifies deployment`annotations
    ensures ok == !deployment.paused
    ensures deployment.annotations ==
            After(hash, old(deployment.annotations), [Call(deployment.paused, config, now)])
    ensures deployment.paused ==> deployment.annotations == old(deployment.annotations)
    ensures ok ==> (if "sonataflow.org/checksum-config" in deployment.annotations
                    then deployment.annotations["sonataflow.org/checksum-config"] else "") ==
                   CalculateHash(hash, config)
  {
    assert [Call(deployment.paused, config, now)][..0] == [];
    if deployment.paused { return false; }
    var currentChecksum := if CHECKSUM in deployment.annotations then deployment.annotations[CHECKSUM] else "";
    var newChecksum := CalculateHash(hash, config);
    if newChecksum != currentChecksum {
      deployment.annotations := deployment.annotations[CHECKSUM := newChecksum];
      if currentChecksum != "" {
        deployment.annotations := deployment.annotations[RESTARTED_AT := now];
      }
    }
    return true;
  }
}
