/** The export job manager. Each step is one section under its mutex, or one thing a worker does outside
    it; a run is any interleaving of steps of the callers and of the workers. */
module ExportJobs {

  const JOB_TTL := 15 * 60 * 1_000_000_000
  const MAX_ACTIVE := 2
  const MAX_STORED := 16

  datatype Id = Id(number: nat)

  datatype Status = Queued | Running | Succeeded | Failed

  datatype Job = Job(kind: string, status: Status, createdAt: int, expiresAt: int)

  datatype File = Temporary(id: Id) | Published(id: Id)

  /** Where the worker of a job is. */
  datatype Phase = Starting | Encoding | Encoded | EncodingFailed | CleaningUp(succeeded: bool) | Leaving

  predicate Active(job: Job) {
    job.status == Queued || job.status == Running
  }

  datatype Step = Create(id: Id, kind: string, now: int) | Look(now: int) | Delete(id: Id, kind: string) | Close
                | Start(id: Id) | Open(id: Id) | Encode(id: Id, ok: bool) | Fail(id: Id, now: int)
                | Publish(id: Id, renamed: bool, now: int) | CleanUp(id: Id) | Leave(id: Id)

  class ExportJobManager {
    var jobs: map<Id, Job>
    var closed: bool
    var workers: nat
    var files: set<File>
    // The workers that have not left, and all numbers given to jobs so far.
    var phases: map<Id, Phase>
    var issued: set<Id>
    // What was reported about the work on a job: that its encoding was good, that its file was renamed, and
    // that its worker was done with it.
    ghost var encoded: set<Id>
    ghost var moved: set<Id>
    ghost var done: set<Id>

    /** A job that waits or runs has its worker, in the phase that fits. */
    ghost predicate Staffed()
      reads `jobs, `phases, `issued, `closed
    {
      && (forall id | id in jobs :: id in issued) && (forall id | id in phases :: id in issued)
      && (forall id | id in jobs && jobs[id].status == Queued :: id in phases && phases[id] == Starting)
      && (forall id | id in jobs && jobs[id].status == Running ::
            id in phases && (phases[id] == Encoding || phases[id] == Encoded || phases[id] == EncodingFailed))
      && (forall id | id in jobs && id in phases && phases[id] == Starting :: jobs[id].status == Queued)
      && (forall id | id in phases && id in jobs && jobs[id].status == Succeeded ::
            phases[id] == CleaningUp(true) || phases[id] == Leaving)
      && (closed ==> jobs == map[])
    }

    ghost predicate Limited()
      reads `jobs, `phases, `workers
    {
      workers == |phases| <= MAX_ACTIVE && |jobs| <= MAX_STORED
    }

    /** The published files are those of the succeeded jobs, and a temporary file has a worker that will
        remove or publish it. */
    ghost predicate Filed()
      reads `jobs, `phases, `files
    {
      FiledIn(jobs, phases, files)
    }

    static ghost predicate FiledIn(jobs: map<Id, Job>, phases: map<Id, Phase>, files: set<File>) {
      && (forall id :: Published(id) in files <==> id in jobs && jobs[id].status == Succeeded)
      && (forall id | Temporary(id) in files ::
            id in phases && phases[id] != Starting && phases[id] != CleaningUp(true) && phases[id] != Leaving)
    }

    /** A listed job succeeded just when its encoding was good and its file was renamed, and failed just
        when its worker was done without both. */
    static ghost predicate ToldIn(jobs: map<Id, Job>, phases: map<Id, Phase>, issued: set<Id>, encoded: set<Id>, moved: set<Id>,
                                  done: set<Id>)
    {
      && moved <= encoded <= issued && moved <= done <= issued
      && (forall id | id in jobs ::
            (jobs[id].status == Succeeded <==> id in moved) && (jobs[id].status == Failed <==> id in done && id !in moved))
      && (forall id | id in phases && (phases[id] == Starting || phases[id] == Encoding) :: id !in encoded && id !in done)
      && (forall id | id in phases && phases[id] == Encoded :: id in encoded && id !in done)
      && (forall id | id in phases && phases[id] == EncodingFailed :: id !in encoded && id !in done)
    }

    ghost predicate Told()
      reads `jobs, `phases, `issued, `encoded, `moved, `done
    {
      ToldIn(jobs, phases, issued, encoded, moved, done)
    }

    ghost predicate Valid()
      reads `jobs, `phases, `issued, `closed, `workers, `files
    {
      Staffed() && Limited() && Filed()
    }

    constructor ()
      ensures Valid() && jobs == map[] && files == {}
      ensures Told()
    {
      jobs, closed, workers, files, phases, issued := map[], false, 0, {}, map[], {};
      encoded, moved, done := {}, {}, {};
    }

    /** With no worker running, the files are just those of the succeeded jobs. */
    lemma QuietFiles()
      requires Valid() && workers == 0
      ensures files == set id | id in jobs && jobs[id].status == Succeeded :: Published(id)
    {
      var published := set id | id in jobs && jobs[id].status == Succeeded :: Published(id);
      forall f ensures f in files <==> f in published {
        match f {
          case Temporary(id) => assert f in files ==> id in phases;
          case Published(id) =>
        }
      }
    }

    // ----- under the mutex -----

    static function ActiveIn(jobs: map<Id, Job>): set<Id> {
      set id | id in jobs && Active(jobs[id])
    }

    function Unexpired(now: int): map<Id, Job>
      reads `jobs
    {
      map id | id in jobs && (Active(jobs[id]) || now < Expiry(jobs[id])) :: jobs[id]
    }

    /** Expired jobs go, with their files. */
    method Cleanup(now: int)
      requires Valid()
      modifies `jobs, `files
      ensures Valid() && jobs == old(Unexpired(now))
      ensures forall f :: f in files <==> f in old(files) && (f.id in jobs || f.id !in old(jobs))
    {
      hide ExportJobManager.Valid;
      var rest := jobs.Keys;
      while rest != {}
        invariant rest <= jobs.Keys && Valid()
        invariant forall id :: id in jobs <==> id in old(jobs) && (id in rest || Active(old(jobs)[id]) || now < Expiry(old(jobs)[id]))
        invariant forall id | id in jobs :: jobs[id] == old(jobs)[id]
        invariant forall f :: f in files <==> f in old(files) && (f.id in jobs || f.id !in old(jobs))
        decreases rest
      {
        var id :| id in rest;
        if !Active(jobs[id]) && now >= Expiry(jobs[id]) {
          Drop(id);
        }
        rest := rest - {id};
      }
    }

    /** A job goes, with its files. */
    method Drop(id: Id)
      requires Valid() && id in jobs
      modifies `jobs, `files
      ensures Valid() && jobs == old(jobs) - {id} && files == old(files) - {Temporary(id), Published(id)}
    {
      jobs, files := jobs - {id}, files - {Temporary(id), Published(id)};
    }

    method ActiveCount() returns (active: nat)
      requires Valid()
      ensures active >= workers && active >= |ActiveIn(jobs)|
      ensures active == workers || active == |ActiveIn(jobs)|
    {
      active := |ActiveIn(jobs)|;
      if workers > active {
        active := workers;
      }
    }

    /** A job is created, and a worker for it, unless two are active or sixteen are kept. */
    method CreateJob(id: Id, kind: string, now: int) returns (accepted: bool)
      requires Valid() && id !in issued
      modifies `jobs, `files, `workers, `phases, `issued
      ensures Valid()
      ensures accepted <==> var kept := old(Unexpired(now));
        !old(closed) && old(workers) < MAX_ACTIVE && |ActiveIn(kept)| < MAX_ACTIVE && |kept| < MAX_STORED
      ensures jobs == if accepted then old(Unexpired(now))[id := Job(kind, Queued, now, now + JOB_TTL)] else old(Unexpired(now))
      ensures forall f :: f in files <==> f in old(files) && (f.id in jobs || f.id !in old(jobs))
      ensures phases == if accepted then old(phases)[id := Starting] else old(phases)
      ensures issued == if accepted then old(issued) + {id} else old(issued)
    {
      NotYet(id);
      Cleanup(now);
      if closed {
        return false;
      }
      var active := ActiveCount();
      if active >= MAX_ACTIVE || |jobs| >= MAX_STORED {
        return false;
      }
      hide ExportJobManager.Staffed, ExportJobManager.Filed;
      AddJob(id, Job(kind, Queued, now, now + JOB_TTL));
      accepted := true;
    }

    lemma NotYet(id: Id)
      requires Staffed() && id !in issued
      ensures id !in jobs && id !in phases
    {
    }

    method AddJob(id: Id, job: Job)
      requires Valid() && id !in issued && job.status == Queued && !closed && workers < MAX_ACTIVE && |jobs| < MAX_STORED
      modifies `jobs, `workers, `phases, `issued
      ensures Valid() && jobs == old(jobs)[id := job] && phases == old(phases)[id := Starting] && issued == old(issued) + {id}
    {
      NotYet(id);
      jobs, workers, issued, phases := jobs[id := job], workers + 1, issued + {id}, phases[id := Starting];
    }

    method DeleteJob(id: Id, kind: string) returns (deleted: bool)
      requires Valid()
      modifies `jobs, `files
      ensures Valid() && deleted == (id in old(jobs) && old(jobs)[id].kind == kind)
      ensures jobs == if deleted then old(jobs) - {id} else old(jobs)
      ensures files == if deleted then old(files) - {Temporary(id), Published(id)} else old(files)
    {
      if id !in jobs || jobs[id].kind != kind {
        return false;
      }
      Drop(id);
      deleted := true;
    }

    /** No job is left, and no worker will publish one. */
    method CloseAll()
      requires Valid()
      modifies `jobs, `files, `closed
      ensures Valid() && closed && jobs == map[]
      ensures forall f :: f in files <==> f in old(files) && f.id !in old(jobs)
    {
      DropAll();
      closed := true;
    }

    method DropAll()
      requires Valid()
      modifies `jobs, `files
      ensures Valid() && jobs == map[]
      ensures forall f :: f in files <==> f in old(files) && f.id !in old(jobs)
    {
      hide ExportJobManager.Valid;
      var rest := jobs.Keys;
      while rest != {}
        invariant rest == jobs.Keys && rest <= old(jobs).Keys && Valid()
        invariant forall f :: f in files <==> f in old(files) && (f.id in rest || f.id !in old(jobs))
        decreases rest
      {
        var id :| id in rest;
        Drop(id);
        rest := rest - {id};
      }
    }

    // ----- the steps of a worker -----

    method StartWork(id: Id)
      requires Valid() && id in phases && phases[id] == Starting
      modifies `jobs, `phases
      ensures Valid()
      ensures jobs == if id in old(jobs) then old(jobs)[id := old(jobs)[id].(status := Running)] else old(jobs)
      ensures phases == old(phases)[id := if id in old(jobs) then Encoding else Leaving]
    {
      if id !in jobs || closed {
        phases := phases[id := Leaving];
        return;
      }
      jobs, phases := jobs[id := jobs[id].(status := Running)], phases[id := Encoding];
    }

    method OpenFile(id: Id)
      requires Valid() && id in phases && phases[id] == Encoding
      modifies `files
      ensures Valid() && files == old(files) + {Temporary(id)}
    {
      files := files + {Temporary(id)};
    }

    /** Encoding ends. It fails, too, if the file was removed together with the job; a failed one leaves none. */
    method EndEncoding(id: Id, ok: bool)
      requires Valid() && id in phases && phases[id] == Encoding
      modifies `files, `phases
      ensures Valid()
      ensures phases == old(phases)[id := if ok && Temporary(id) in old(files) then Encoded else EncodingFailed]
      ensures files == if phases[id] == Encoded then old(files) else old(files) - {Temporary(id)}
    {
      if ok && Temporary(id) in files {
        phases := phases[id := Encoded];
      } else {
        files, phases := files - {Temporary(id)}, phases[id := EncodingFailed];
      }
    }

    method FailJob(id: Id, now: int)
      requires Valid() && id in phases && phases[id] == EncodingFailed
      modifies `jobs, `files, `phases
      ensures Valid() && phases == old(phases)[id := CleaningUp(false)]
      ensures jobs == if id in old(jobs) then old(jobs)[id := EndedAs(old(jobs)[id], Failed, now)] else old(jobs)
      ensures files == if id in old(jobs) then old(files) - {Temporary(id), Published(id)} else old(files)
    {
      hide ExportJobManager.Staffed, ExportJobManager.Limited, ExportJobManager.Filed;
      NoneIfClosed();
      if !closed && id in jobs {
        FailListed(id, now);
      } else {
        FailUnlisted(id);
      }
    }

    method FailListed(id: Id, now: int)
      requires Valid() && id in phases && phases[id] == EncodingFailed && id in jobs
      modifies `jobs, `files, `phases
      ensures Valid() && jobs == old(jobs)[id := EndedAs(old(jobs)[id], Failed, now)]
      ensures files == old(files) - {Temporary(id), Published(id)} && phases == old(phases)[id := CleaningUp(false)]
    {
      SameSize(jobs, id, EndedAs(jobs[id], Failed, now));
      SameSize(phases, id, CleaningUp(false));
      jobs := jobs[id := EndedAs(jobs[id], Failed, now)];
      files := files - {Temporary(id), Published(id)};
      phases := phases[id := CleaningUp(false)];
    }

    method FailUnlisted(id: Id)
      requires Valid() && id in phases && phases[id] == EncodingFailed && (closed || id !in jobs)
      modifies `phases
      ensures Valid() && phases == old(phases)[id := CleaningUp(false)]
    {
      SameSize(phases, id, CleaningUp(false));
      phases := phases[id := CleaningUp(false)];
    }

    /** The file and the completed state appear together, unless the job was deleted meanwhile. */
    method PublishJob(id: Id, renamed: bool, now: int)
      requires Valid() && id in phases && phases[id] == Encoded
      modifies `jobs, `files, `phases
      ensures Valid()
      ensures var good := id in old(jobs) && renamed && Temporary(id) in old(files);
        && (jobs == if id in old(jobs) then old(jobs)[id := EndedAs(old(jobs)[id], if good then Succeeded else Failed, now)] else old(jobs))
        && (files == if good then old(files) - {Temporary(id)} + {Published(id)}
                     else if id in old(jobs) then old(files) - {Temporary(id)} else old(files))
        && phases == old(phases)[id := CleaningUp(good)]
    {
      hide ExportJobManager.Staffed, ExportJobManager.Limited, ExportJobManager.Filed;
      NotPublished(id);
      if id !in jobs || closed {
        NoneIfClosed();
        GiveUp(id);
      } else if !renamed || Temporary(id) !in files {
        GiveUpPublishing(id, now);
      } else {
        PublishFile(id, now);
      }
    }

    lemma NotPublished(id: Id)
      requires Staffed() && id in phases && phases[id] == Encoded
      ensures id in jobs ==> jobs[id].status == Running || jobs[id].status == Failed
    {
    }

    lemma NoneIfClosed()
      requires Staffed()
      ensures closed ==> jobs == map[]
    {
    }

    method GiveUp(id: Id)
      requires Valid() && id in phases && phases[id] == Encoded && id !in jobs
      modifies `phases
      ensures Valid() && phases == old(phases)[id := CleaningUp(false)]
    {
      phases := phases[id := CleaningUp(false)];
    }

    static lemma SameSize<K, V>(m: map<K, V>, k: K, v: V)
      requires k in m
      ensures |m[k := v]| == |m|
    {
      assert m[k := v].Keys == m.Keys;
    }

    method GiveUpPublishing(id: Id, now: int)
      requires Valid() && id in phases && phases[id] == Encoded && id in jobs
      modifies `jobs, `files, `phases
      ensures Valid() && jobs == old(jobs)[id := EndedAs(old(jobs)[id], Failed, now)]
      ensures files == old(files) - {Temporary(id)} && phases == old(phases)[id := CleaningUp(false)]
    {
      SameSize(jobs, id, EndedAs(jobs[id], Failed, now));
      SameSize(phases, id, CleaningUp(false));
      files := files - {Temporary(id)};
      jobs := jobs[id := EndedAs(jobs[id], Failed, now)];
      phases := phases[id := CleaningUp(false)];
    }

    static lemma PublishedFiled(jobs: map<Id, Job>, phases: map<Id, Phase>, files: set<File>, id: Id, job: Job)
      requires FiledIn(jobs, phases, files) && id in jobs && id in phases && job.status == Succeeded
      ensures FiledIn(jobs[id := job], phases[id := CleaningUp(true)], files - {Temporary(id)} + {Published(id)})
    {
    }

    method PublishFile(id: Id, now: int)
      requires Valid() && id in phases && phases[id] == Encoded && id in jobs
      modifies `jobs, `files, `phases
      ensures Valid() && jobs == old(jobs)[id := EndedAs(old(jobs)[id], Succeeded, now)]
      ensures files == old(files) - {Temporary(id)} + {Published(id)} && phases == old(phases)[id := CleaningUp(true)]
    {
      SameSize(jobs, id, EndedAs(jobs[id], Succeeded, now));
      hide ExportJobManager.FiledIn;
      SameSize(phases, id, CleaningUp(true));
      PublishedFiled(jobs, phases, files, id, EndedAs(jobs[id], Succeeded, now));
      files := files - {Temporary(id)} + {Published(id)};
      jobs := jobs[id := EndedAs(jobs[id], Succeeded, now)];
      phases := phases[id := CleaningUp(true)];
    }

    /** Outside the mutex: whatever a worker that did not succeed has left goes. */
    method CleanUpFiles(id: Id)
      requires Valid() && id in phases && phases[id].CleaningUp?
      modifies `files, `phases
      ensures Valid() && phases == old(phases)[id := Leaving]
      ensures files == if old(phases)[id].succeeded then old(files) else old(files) - {Temporary(id)}
    {
      if !phases[id].succeeded {
        NotFiled(id);
        files := files - {Temporary(id), Published(id)};
      }
      phases := phases[id := Leaving];
    }

    lemma NotFiled(id: Id)
      requires Valid() && id in phases && phases[id] == CleaningUp(false)
      ensures Published(id) !in files
    {
    }

    method LeaveWorker(id: Id)
      requires Valid() && id in phases && phases[id] == Leaving
      modifies `workers, `phases
      ensures Valid() && workers == old(workers) - 1 && phases == old(phases) - {id}
    {
      workers, phases := workers - 1, phases - {id};
    }

    // ----- any interleaving -----

    /** A job of another number, its files and its worker stay as they are. */
    twostate predicate OthersStay(id: Id)
      reads `jobs, `files, `phases
    {
      && jobs - {id} == old(jobs) - {id} && phases - {id} == old(phases) - {id}
      && (forall f: File | f.id != id :: f in files <==> f in old(files))
    }

    ghost predicate At(id: Id, phase: Phase)
      reads `phases
    {
      id in phases && phases[id] == phase
    }

    lemma Numbered()
      requires Valid()
      ensures forall id | id in jobs || id in phases :: id in issued
    {
    }

    /** A step of a caller: only whole jobs come and go. */
    method TakeCallers(step: Step)
      requires Valid() && Told() && (step.Create? || step.Look? || step.Delete? || step.Close?)
      modifies `jobs, `files, `closed, `workers, `phases, `issued
      ensures Valid() && Told()
      ensures forall id | id in jobs && id in old(jobs) :: jobs[id] == old(jobs)[id]
      ensures forall id | id in jobs && id !in old(jobs) :: step.Create? && id == step.id
    {
      hide ExportJobManager.Valid, ExportJobManager.Told;
      Numbered();
      match step {
        case Create(id, kind, now) => if id !in issued { TakeCreate(id, kind, now); }
        case Look(now) =>
          Cleanup(now);
          FewerTold();
        case Delete(id, kind) =>
          var _ := DeleteJob(id, kind);
          FewerTold();
        case Close =>
          CloseAll();
          FewerTold();
      }
    }

    twostate lemma FewerTold()
      requires old(Told()) && phases == old(phases) && issued == old(issued)
      requires encoded == old(encoded) && moved == old(moved) && done == old(done)
      requires forall id | id in jobs :: id in old(jobs) && jobs[id] == old(jobs)[id]
      ensures Told()
    {
    }

    method TakeCreate(id: Id, kind: string, now: int)
      requires Valid() && Told() && id !in issued
      modifies `jobs, `files, `workers, `phases, `issued
      ensures Valid() && Told()
      ensures forall k | k in jobs :: k == id || (k in old(jobs) && jobs[k] == old(jobs)[k])
    {
      hide ExportJobManager.Valid;
      Numbered();
      var _ := CreateJob(id, kind, now);
    }

    method TakeEncode(id: Id, ok: bool)
      requires Valid() && Told() && At(id, Encoding)
      modifies `files, `phases, `encoded
      ensures Valid() && Told() && OthersStay(id)
      ensures encoded == if ok && Temporary(id) in old(files) then old(encoded) + {id} else old(encoded)
    {
      hide ExportJobManager.Valid, ExportJobManager.ToldIn;
      Numbered();
      EncodeTold(jobs, phases, issued, encoded, moved, done, id, ok && Temporary(id) in files);
      encoded := if ok && Temporary(id) in files then encoded + {id} else encoded;
      EndEncoding(id, ok);
    }

    static lemma EncodeTold(jobs: map<Id, Job>, phases: map<Id, Phase>, issued: set<Id>, encoded: set<Id>, moved: set<Id>,
                            done: set<Id>, id: Id, good: bool)
      requires ToldIn(jobs, phases, issued, encoded, moved, done) && id in phases && phases[id] == Encoding && id in issued
      ensures ToldIn(jobs, phases[id := if good then Encoded else EncodingFailed], issued, if good then encoded + {id} else encoded,
                     moved, done)
    {
    }

    method TakeFail(id: Id, now: int)
      requires Valid() && Told() && At(id, EncodingFailed)
      modifies `jobs, `files, `phases, `done
      ensures Valid() && Told() && OthersStay(id) && done == old(done) + {id}
    {
      hide ExportJobManager.Valid;
      Numbered();
      done := done + {id};
      FailJob(id, now);
    }

    method TakePublish(id: Id, renamed: bool, now: int)
      requires Valid() && Told() && At(id, Encoded)
      modifies `jobs, `files, `phases, `moved, `done
      ensures Valid() && Told() && OthersStay(id) && done == old(done) + {id}
      ensures moved == if id in old(jobs) && renamed && Temporary(id) in old(files) then old(moved) + {id} else old(moved)
    {
      hide ExportJobManager.Valid, ExportJobManager.ToldIn;
      Numbered();
      PublishTold(jobs, phases, issued, encoded, moved, done, id, now, id in jobs && renamed && Temporary(id) in files);
      moved := if id in jobs && renamed && Temporary(id) in files then moved + {id} else moved;
      done := done + {id};
      PublishJob(id, renamed, now);
    }

    static lemma PublishTold(jobs: map<Id, Job>, phases: map<Id, Phase>, issued: set<Id>, encoded: set<Id>, moved: set<Id>,
                             done: set<Id>, id: Id, now: int, good: bool)
      requires ToldIn(jobs, phases, issued, encoded, moved, done) && id in phases && phases[id] == Encoded && id in issued
      requires good ==> id in jobs
      ensures ToldIn(if id in jobs then jobs[id := EndedAs(jobs[id], if good then Succeeded else Failed, now)] else jobs,
                     phases[id := CleaningUp(good)], issued, encoded, if good then moved + {id} else moved, done + {id})
    {
    }

    method TakeStart(id: Id)
      requires Valid() && Told() && At(id, Starting)
      modifies `jobs, `phases
      ensures Valid() && Told() && OthersStay(id)
    {
      hide ExportJobManager.Valid;
      QueuedStart(id);
      StartWork(id);
    }

    lemma QueuedStart(id: Id)
      requires Valid() && At(id, Starting)
      ensures id in jobs ==> jobs[id].status == Queued
    {
    }

    /** A step of a worker, which is about one job. What is reported about the work on it is entered apart
        from the step itself. */
    method TakeWorkers(step: Step)
      requires Valid() && Told() && !(step.Create? || step.Look? || step.Delete? || step.Close?)
      modifies `jobs, `files, `workers, `phases, `encoded, `moved, `done
      ensures Valid() && Told() && OthersStay(step.id)
      ensures encoded == if step.Encode? && step.ok && old(At(step.id, Encoding)) && Temporary(step.id) in old(files)
                         then old(encoded) + {step.id} else old(encoded)
      ensures moved == if step.Publish? && step.renamed && old(At(step.id, Encoded)) && Temporary(step.id) in old(files)
                          && step.id in old(jobs)
                       then old(moved) + {step.id} else old(moved)
      ensures done == if (step.Fail? && old(At(step.id, EncodingFailed))) || (step.Publish? && old(At(step.id, Encoded)))
                      then old(done) + {step.id} else old(done)
    {
      hide ExportJobManager.Valid, ExportJobManager.Told;
      match step {
        case Start(id) => if id in phases && phases[id] == Starting { TakeStart(id); }
        case Open(id) => if id in phases && phases[id] == Encoding { OpenFile(id); }
        case Encode(id, ok) => if id in phases && phases[id] == Encoding { TakeEncode(id, ok); }
        case Fail(id, now) => if id in phases && phases[id] == EncodingFailed { TakeFail(id, now); }
        case Publish(id, renamed, now) => if id in phases && phases[id] == Encoded { TakePublish(id, renamed, now); }
        case CleanUp(id) => if id in phases && phases[id].CleaningUp? { TakeCleanUp(id); }
        case Leave(id) => if id in phases && phases[id] == Leaving { TakeLeave(id); }
      }
    }

    method TakeCleanUp(id: Id)
      requires Valid() && Told() && id in phases && phases[id].CleaningUp?
      modifies `files, `phases
      ensures Valid() && Told() && OthersStay(id)
    {
      hide ExportJobManager.Valid;
      CleanUpFiles(id);
    }

    method TakeLeave(id: Id)
      requires Valid() && Told() && At(id, Leaving)
      modifies `workers, `phases
      ensures Valid() && Told() && OthersStay(id)
    {
      hide ExportJobManager.Valid;
      LeaveWorker(id);
    }

    method Take(step: Step)
      requires Valid() && Told()
      modifies this
      ensures Valid() && Told()
    {
      hide ExportJobManager.Valid, ExportJobManager.Told;
      if step.Create? || step.Look? || step.Delete? || step.Close? {
        TakeCallers(step);
      } else {
        TakeWorkers(step);
      }
    }

    /** Whatever the order of steps: at most two workers, at most sixteen jobs, a file for every job that
        succeeded, and none for any other. A listed job has succeeded if and only if its encoding was good
        and its file was renamed, and has failed if and only if its worker was done without both. */
    method Run(steps: seq<Step>)
      requires Valid() && Told()
      modifies this
      ensures workers <= 2 && |jobs| <= 16
      ensures forall id :: Published(id) in files <==> id in jobs && jobs[id].status == Succeeded
      ensures workers == 0 ==> files == set id | id in jobs && jobs[id].status == Succeeded :: Published(id)
      ensures forall id | id in jobs ::
        && (jobs[id].status == Succeeded <==> id in encoded && id in moved)
        && (jobs[id].status == Failed <==> id in done && !(id in encoded && id in moved))
    {
      var i := 0;
      while i < |steps|
        invariant 0 <= i <= |steps| && Valid() && Told()
      {
        Take(steps[i]);
        i := i + 1;
      }
      if workers == 0 {
        QuietFiles();
      }
    }
  }

  /** A job is active until it has succeeded or failed. Then it stays for a quarter of an hour. */
  lemma EndedStaysAWhile(job: Job, status: Status, ended: int, now: int)
    requires status in {Succeeded, Failed} && ended > 0
    ensures var e := EndedAs(job, status, ended);
      && !Active(e) && e.status == status && e.kind == job.kind && e.createdAt == job.createdAt
      && (now < Expiry(e) <==> now - ended < 15 * 60 * 1_000_000_000)
    ensures Active(job) <==> job.status !in {Succeeded, Failed}
  {
  }

  /** A job without an end of its own expires a quarter of an hour after its creation. */
  lemma UndatedExpires(job: Job)
    ensures Expiry(job) == if job.expiresAt != 0 then job.expiresAt else job.createdAt + 15 * 60 * 1_000_000_000
  {
  }

  function EndedAs(job: Job, status: Status, now: int): Job {
    job.(status := status, expiresAt := now + JOB_TTL)
  }

  function Expiry(job: Job): int {
    if job.expiresAt == 0 then job.createdAt + JOB_TTL else job.expiresAt
  }
}
