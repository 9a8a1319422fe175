/**
  * `DeploymentService`: the table of running previews, one per project,
  * each served by a child process on its own port. Spawning and killing a
  * process are recorded as calls rather than performed.
  */
module Deployment {
  import opened Text

  const BasePort: int := 3000
  const UrlHead: string := "http://localhost:"

  datatype Status = Running | Stopped | Failed

  // ------------------------------------------------------------------
  // `${port}`: decimal text of a port number
  // ------------------------------------------------------------------

  function DigitChar(d: nat): char
    requires d < 10
  {
    ('0' as int + d) as char
  }

  function DigitValue(c: char): nat
    requires IsDigit(c)
  {
    c as int - '0' as int
  }

  /** The decimal text JavaScript gives a non-negative integer. */
  function Decimal(n: nat): (r: string)
    ensures |r| > 0 && forall k :: 0 <= k < |r| ==> IsDigit(r[k])
    ensures r[0] == '0' ==> n == 0
  {
    if n < 10 then [DigitChar(n)] else Decimal(n / 10) + [DigitChar(n % 10)]
  }

  /** The value of a text of decimal digits. */
  function DecimalValue(s: string): nat
    requires forall k :: 0 <= k < |s| ==> IsDigit(s[k])
  {
    if |s| == 0 then 0 else 10 * DecimalValue(s[..|s| - 1]) + DigitValue(s[|s| - 1])
  }

  /** The port's text reads back as the port: the text determines the number. */
  lemma {:induction false} DecimalRoundTrip(n: nat)
    ensures DecimalValue(Decimal(n)) == n
  {
    if n >= 10 {
      DecimalRoundTrip(n / 10);
      var s := Decimal(n);
      assert s[..|s| - 1] == Decimal(n / 10);
    }
  }

  /** Different ports give different URLs. */
  lemma UrlInjective(p: nat, q: nat)
    ensures UrlHead + Decimal(p) == UrlHead + Decimal(q) ==> p == q
  {
    if UrlHead + Decimal(p) == UrlHead + Decimal(q) {
      assert Decimal(p) == (UrlHead + Decimal(p))[|UrlHead|..];
      assert Decimal(q) == (UrlHead + Decimal(q))[|UrlHead|..];
      DecimalRoundTrip(p);
      DecimalRoundTrip(q);
    }
  }

  // ------------------------------------------------------------------
  // The records and the service
  // ------------------------------------------------------------------

  /** A `serve` process started for a project: `npx serve -p <port> <path>`. */
  datatype Launch = Launch(projectId: string, port: int, projectPath: string)

  /** The record the service hands out; the exit handler changes its status in place. */
  class Record {
    const projectId: string
    const port: int
    /** The process serving it, as an index into the service's launches. */
    const process: nat
    const url: string
    var status: Status

    constructor (projectId: string, port: nat, process: nat)
      ensures this.projectId == projectId && this.port == port && this.process == process
      ensures url == UrlHead + Decimal(port) && status == Running
    {
      this.projectId := projectId;
      this.port := port;
      this.process := process;
      this.url := UrlHead + Decimal(port);
      this.status := Running;
    }
  }

  /** Entries are keyed by their own project and point at the process launched for them. */
  ghost predicate Keyed(m: map<string, Record>, launched: seq<Launch>) {
    forall id :: id in m ==>
      m[id].projectId == id && m[id].process < |launched|
      && launched[m[id].process].projectId == id && launched[m[id].process].port == m[id].port
  }

  /** The ports are distinct and lie in 3001 .. 3000 + size. */
  ghost predicate PortsFit(m: map<string, Record>) {
    (forall id :: id in m ==> BasePort < m[id].port <= BasePort + |m|)
    && (forall i, j :: i in m && j in m && i != j ==> m[i].port != m[j].port)
  }

  /** A fresh deployment launched last keeps the table keyed. */
  lemma KeyedInsert(m: map<string, Record>, launched: seq<Launch>, d: Record, l: Launch)
    requires Keyed(m, launched) && d.projectId !in m
    requires d.process == |launched| && l.projectId == d.projectId && l.port == d.port
    ensures Keyed(m[d.projectId := d], launched + [l])
  {
    var m' := m[d.projectId := d];
    forall id | id in m'
      ensures m'[id].process < |launched| + 1
      ensures (launched + [l])[m'[id].process].projectId == id && (launched + [l])[m'[id].process].port == m'[id].port
    {
      if id != d.projectId {
        assert (launched + [l])[m[id].process] == launched[m[id].process];
      }
    }
  }


  /**
    * While nothing has been removed, the next port, 3000 + size + 1, is
    * free, and taking it keeps the ports distinct and consecutive.
    */
  lemma PortsFitInsert(m: map<string, Record>, d: Record)
    requires PortsFit(m) && d.projectId !in m && d.port == BasePort + |m| + 1
    ensures forall id :: id in m ==> m[id].port != d.port
    ensures PortsFit(m[d.projectId := d])
  {
    var m' := m[d.projectId := d];
    assert |m'| == |m| + 1;
    forall i, j | i in m' && j in m' && i != j
      ensures m'[i].port != m'[j].port
    {
    }
  }

  /** A running record joining a table of running records keeps it running, and the table grows by one. */
  lemma RunningInsert(m: map<string, Record>, d: Record, m': map<string, Record>)
    requires d.projectId !in m && d.status == Running && m' == m[d.projectId := d]
    requires forall id :: id in m ==> m[id].status == Running
    ensures forall id :: id in m' ==> m'[id].status == Running
    ensures |m'| == |m| + 1
  {
  }

  /** When every launch took the port after its predecessor's, the port after the last launch is held by no entry. */
  lemma NextLaunchPortFree(m: map<string, Record>, launched: seq<Launch>)
    requires Keyed(m, launched)
    requires forall i :: 0 <= i < |launched| ==> launched[i].port == BasePort + i + 1
    ensures forall id :: id in m ==> m[id].port != BasePort + |launched| + 1
  {
    forall id | id in m
      ensures m[id].port != BasePort + |launched| + 1
    {
      assert m[id].port == launched[m[id].process].port;
    }
  }

  class DeploymentService {
    var deployments: map<string, Record>
    /** Every `spawn`, in order. */
    var launched: seq<Launch>
    /** Every `kill`, by process. */
    var killed: seq<nat>
    /** Whether an entry has ever left the table. */
    ghost var removed: bool

    /** Every tracked record is running. */
    ghost predicate AllRunning()
      reads this, deployments.Values
    {
      forall id :: id in deployments ==> deployments[id].status == Running
    }

    ghost predicate Valid()
      reads this, deployments.Values
    {
      Keyed(deployments, launched) && AllRunning()
      && (!removed ==> PortsFit(deployments) && |launched| == |deployments|)
    }

    /** Every process was started on the port after its predecessor's, from 3001 on. */
    ghost predicate PortsByLaunch()
      reads this
    {
      forall i :: 0 <= i < |launched| ==> launched[i].port == BasePort + i + 1
    }

    constructor ()
      ensures Valid() && deployments == map[] && launched == [] && killed == [] && !removed
    {
      deployments := map[];
      launched := [];
      killed := [];
      removed := false;
    }

    /** `getDeployment`: the tracked record, if any. */
    function GetDeployment(projectId: string): (r: Option<Record>)
      reads this
      ensures r.Some? <==> projectId in deployments
      ensures r.Some? ==> r.value == deployments[projectId]
    {
      if projectId in deployments then Some(deployments[projectId]) else None
    }

    /**
      * `deployProject`: a tracked project gets its record back and nothing is
      * spawned; otherwise a `serve` process is launched on the next port and
      * a running record for it joins the table.
      */
    method DeployProject(projectId: string, projectPath: string) returns (d: Record)
      requires Valid()
      modifies this
      ensures Valid() && killed == old(killed) && removed == old(removed)
      ensures GetDeployment(projectId) == Some(d)
      ensures old(projectId in deployments) ==>
        d == old(deployments[projectId]) && deployments == old(deployments) && launched == old(launched)
      ensures !old(projectId in deployments) ==>
        fresh(d) && d.projectId == projectId && d.port == BasePort + old(|deployments|) + 1
        && d.status == Running && d.url == UrlHead + Decimal(d.port)
        && deployments == old(deployments)[projectId := d] && |deployments| == old(|deployments|) + 1
        && launched == old(launched) + [Launch(projectId, d.port, projectPath)] && d.process == old(|launched|)
      ensures !old(projectId in deployments) && !removed ==>
        forall id :: id in old(deployments) ==> old(deployments[id]).port != d.port
    {
      if projectId in deployments {
        return deployments[projectId];
      }
      var port := BasePort + |deployments| + 1;
      var l := Launch(projectId, port, projectPath);
      d := new Record(projectId, port, |launched|);
      KeyedInsert(deployments, launched, d, l);
      RunningInsert(deployments, d, deployments[projectId := d]);
      if !removed {
        PortsFitInsert(deployments, d);
      }
      launched := launched + [l];
      deployments := deployments[projectId := d];
    }

    /**
      * `deployProject` with the port numbered by launches instead of by the
      * table's size: a port is never handed out twice, even after a stop.
      */
    method DeployProjectFreshPort(projectId: string, projectPath: string) returns (d: Record)
      requires Valid() && PortsByLaunch()
      modifies this
      ensures Valid() && PortsByLaunch() && killed == old(killed) && removed == old(removed)
      ensures GetDeployment(projectId) == Some(d)
      ensures old(projectId in deployments) ==>
        d == old(deployments[projectId]) && deployments == old(deployments) && launched == old(launched)
      ensures !old(projectId in deployments) ==>
        fresh(d) && d.projectId == projectId && d.port == BasePort + old(|launched|) + 1
        && d.status == Running && d.url == UrlHead + Decimal(d.port)
        && deployments == old(deployments)[projectId := d]
        && launched == old(launched) + [Launch(projectId, d.port, projectPath)] && d.process == old(|launched|)
      ensures !old(projectId in deployments) ==>
        forall id :: id in old(deployments) ==> old(deployments[id]).port != d.port
    {
      if projectId in deployments {
        return deployments[projectId];
      }
      var port := BasePort + |launched| + 1;
      var l := Launch(projectId, port, projectPath);
      NextLaunchPortFree(deployments, launched);
      d := new Record(projectId, port, |launched|);
      KeyedInsert(deployments, launched, d, l);
      RunningInsert(deployments, d, deployments[projectId := d]);
      if !removed {
        PortsFitInsert(deployments, d);
      }
      launched := launched + [l];
      deployments := deployments[projectId := d];
    }

    /** `stopDeployment`: true exactly when the project was tracked; it is then killed and only its entry removed. */
    method StopDeployment(projectId: string) returns (stopped: bool)
      requires Valid()
      modifies this
      ensures Valid() && launched == old(launched)
      ensures stopped == old(projectId in deployments) && GetDeployment(projectId).None?
      ensures stopped ==>
        deployments == old(deployments) - {projectId} && |deployments| == old(|deployments|) - 1 && killed == old(killed) + [old(deployments[projectId]).process]
        && removed
      ensures !stopped ==> deployments == old(deployments) && killed == old(killed) && removed == old(removed)
    {
      if projectId in deployments {
        var d := deployments[projectId];
        killed := killed + [d.process];
        deployments := deployments - {projectId};
        removed := true;
        return true;
      }
      return false;
    }

    /**
      * The `close` handler of a project's process as written: it marks the
      * tracked record stopped and drops it, and fails (the lookup yields
      * `undefined`) when the entry is already gone.
      */
    method OnExit(projectId: string) returns (handled: bool)
      requires Valid()
      modifies this, if projectId in deployments then {deployments[projectId]} else {}
      ensures Valid() && launched == old(launched) && killed == old(killed)
      ensures handled == old(projectId in deployments) && GetDeployment(projectId).None?
      ensures handled ==>
        old(deployments[projectId]).status == Stopped && deployments == old(deployments) - {projectId} && removed
      ensures !handled ==> deployments == old(deployments) && removed == old(removed)
    {
      if projectId !in deployments {
        return false;
      }
      var d := deployments[projectId];
      d.status := Stopped;
      deployments := deployments - {projectId};
      removed := true;
      return true;
    }

    /**
      * Stopping a deployment kills its process, whose `close` event then
      * runs the handler: as written, that handler always fails after a
      * successful stop, because the stop already removed the entry.
      */
    method StopThenExit(projectId: string) returns (stopped: bool, handled: bool)
      requires Valid()
      modifies this, if projectId in deployments then {deployments[projectId]} else {}
      ensures Valid()
      ensures stopped == old(projectId in deployments)
      ensures stopped ==> !handled && deployments == old(deployments) - {projectId}
    {
      stopped := StopDeployment(projectId);
      handled := OnExit(projectId);
    }

    /** The `close` handler guarded by the presence of the entry: it never fails. */
    method OnExitGuarded(projectId: string)
      requires Valid()
      modifies this, if projectId in deployments then {deployments[projectId]} else {}
      ensures Valid() && launched == old(launched) && killed == old(killed)
      ensures deployments == old(deployments) - {projectId} && GetDeployment(projectId).None?
      ensures old(projectId in deployments) ==> old(deployments[projectId]).status == Stopped && removed
      ensures !old(projectId in deployments) ==> removed == old(removed)
    {
      if projectId in deployments {
        var d := deployments[projectId];
        d.status := Stopped;
        deployments := deployments - {projectId};
        removed := true;
      }
    }

    /** With the guarded handler, a stop followed by the process's exit leaves the table without the project and nothing fails. */
    method StopThenExitGuarded(projectId: string) returns (stopped: bool)
      requires Valid()
      modifies this, if projectId in deployments then {deployments[projectId]} else {}
      ensures Valid()
      ensures stopped == old(projectId in deployments)
      ensures deployments == old(deployments) - {projectId} && GetDeployment(projectId).None?
      ensures stopped ==> killed == old(killed) + [old(deployments[projectId]).process]
    {
      stopped := StopDeployment(projectId);
      OnExitGuarded(projectId);
    }
  }

  /**
    * As written, a deploy after a stop is handed the port of a preview that
    * is still running: deploy `a` and `b`, stop `a`, deploy `c`.
    */
  method PortReusedAfterStop(a: string, b: string, c: string) returns (svc: DeploymentService, db: Record, dc: Record)
    requires a != b && b != c && a != c
    ensures svc.GetDeployment(b) == Some(db) && svc.GetDeployment(c) == Some(dc)
    ensures db.status == Running && dc.status == Running && db.port == dc.port == BasePort + 2
  {
    svc := new DeploymentService();
    var da := svc.DeployProject(a, a);
    db := svc.DeployProject(b, b);
    var stopped := svc.StopDeployment(a);
    dc := svc.DeployProject(c, c);
  }
}
