/** Dependency resolution over the registered singletons: which services are resolvable, and in what
    order they are started. */
module ServiceContainer {
  import opened Common

  datatype Status = Unregistered | Registered | Running | Stopped

  /** A service as the container sees it: its declared dependencies, whether starting it sets its status
      to running, and that status. */
  class Service {
    const name: string
    const dependencies: seq<string>
    const comesUp: bool
    var status: Status

    constructor (name: string, dependencies: seq<string>, comesUp: bool)
      ensures this.name == name && this.dependencies == dependencies && this.comesUp == comesUp
      ensures status == Unregistered
    {
      this.name, this.dependencies, this.comesUp, status := name, dependencies, comesUp, Unregistered;
    }

    method StartService()
      modifies this
      ensures status == if comesUp then Running else old(status)
    {
      if comesUp {
        status := Running;
      }
    }

    method StopService()
      modifies this
      ensures status == Stopped
    {
      status := Stopped;
    }
  }

  type Registry = map<string, Service>

  datatype Error = Missing(name: string) | Circular(name: string)

  /** `running` are the services whose status is running, `log` the starts so far. */
  datatype Outcome = Outcome(errors: seq<Error>, running: set<Service>, log: seq<Service>)

  function Start(s: Service, o: Outcome): Outcome {
    if s in o.running then o
    else Outcome(o.errors, if s.comesUp then o.running + {s} else o.running, o.log + [s])
  }

  /** Resolve one service with the names in `path` under resolution. */
  function Resolve(reg: Registry, name: string, path: set<string>, running: set<Service>, log: seq<Service>): Outcome
    decreases reg.Keys - path, 0
  {
    var n := Lower(name);
    if n in path then Outcome([Circular(n)], running, log)
    else if n !in reg then Outcome([Missing(n)], running, log)
    else
      assert n in reg.Keys - path && n !in reg.Keys - (path + {n});
      var o := ResolveAll(reg, reg[n].dependencies, path + {n}, running, log);
      if o.errors != [] then o else Start(reg[n], o)
  }

  function ResolveAll(reg: Registry, deps: seq<string>, path: set<string>, running: set<Service>,
                      log: seq<Service>): Outcome
    decreases reg.Keys - path, 1, |deps|
  {
    if deps == [] then Outcome([], running, log) else
    var o := Resolve(reg, deps[0], path, running, log);
    if o.errors != [] then o else ResolveAll(reg, deps[1..], path, o.running, o.log)
  }

  // ----- what can be resolved ----------------------------------------------------------------------

  ghost predicate DependsOn(reg: Registry, a: string, b: string) {
    a in reg && exists i :: 0 <= i < |reg[a].dependencies| && Lower(reg[a].dependencies[i]) == b
  }

  /** A chain of declared dependencies that begins with `n`. */
  ghost predicate Chain(reg: Registry, n: string, c: seq<string>)
    decreases |c|
  {
    c != [] && c[0] == n && (|c| > 1 ==> DependsOn(reg, n, c[1]) && Chain(reg, c[1], c[1..]))
  }

  function Last(c: seq<string>): string
    requires c != []
  {
    c[|c|-1]
  }

  ghost predicate AllRegistered(reg: Registry, n: string) {
    forall c :: Chain(reg, n, c) ==> Last(c) in reg
  }

  ghost predicate NoCycle(reg: Registry, n: string) {
    forall c :: Chain(reg, n, c) ==> Last(c) !in c[..|c|-1]
  }

  /** A chain that leaves the registry or comes back to the path or to itself. */
  ghost predicate Bad(reg: Registry, n: string, path: set<string>, c: seq<string>) {
    Chain(reg, n, c) && (Last(c) !in reg || Last(c) in path || Last(c) in c[..|c|-1])
  }

  lemma PrependChain(reg: Registry, n: string, d: string, path: set<string>, c: seq<string>)
    requires DependsOn(reg, n, d) && Bad(reg, d, path + {n}, c)
    ensures Bad(reg, n, path, [n] + c) && Last([n] + c) == Last(c)
  {
    var e := [n] + c;
    assert e[1..] == c && e[..|e|-1] == [n] + c[..|c|-1];
  }

  lemma BadTail(reg: Registry, n: string, path: set<string>, c: seq<string>)
    requires Bad(reg, n, path, c) && |c| > 1
    ensures Bad(reg, c[1], path + {n}, c[1..])
  {
    assert c[..|c|-1] == [n] + c[1..][..|c|-2];
  }

  /** Resolution fails only because of a bad chain, and its error names the end of one. */
  lemma {:induction false} FailureHasChain(reg: Registry, name: string, path: set<string>, running: set<Service>,
                                           log: seq<Service>) returns (c: seq<string>)
    requires Resolve(reg, name, path, running, log).errors != []
    ensures Bad(reg, Lower(name), path, c)
    ensures Resolve(reg, name, path, running, log).errors ==
            [if Last(c) in path || Last(c) in c[..|c|-1] then Circular(Last(c)) else Missing(Last(c))]
    decreases reg.Keys - path, 0
  {
    var n := Lower(name);
    if n in path || n !in reg {
      c := [n];
    } else {
      assert n in reg.Keys - path && n !in reg.Keys - (path + {n});
      var i, d := FailureAmong(reg, reg[n].dependencies, path + {n}, running, log);
      assert DependsOn(reg, n, d[0]);
      PrependChain(reg, n, d[0], path, d);
      c := [n] + d;
      assert c[..|c|-1] == [n] + d[..|d|-1];
    }
  }

  lemma {:induction false} FailureAmong(reg: Registry, deps: seq<string>, path: set<string>, running: set<Service>,
                                        log: seq<Service>) returns (i: nat, c: seq<string>)
    requires ResolveAll(reg, deps, path, running, log).errors != []
    ensures i < |deps| && c != [] && c[0] == Lower(deps[i]) && Bad(reg, c[0], path, c)
    ensures ResolveAll(reg, deps, path, running, log).errors ==
            [if Last(c) in path || Last(c) in c[..|c|-1] then Circular(Last(c)) else Missing(Last(c))]
    decreases reg.Keys - path, 1, |deps|
  {
    var o := Resolve(reg, deps[0], path, running, log);
    if o.errors != [] {
      c := FailureHasChain(reg, deps[0], path, running, log);
      i := 0;
    } else {
      i, c := FailureAmong(reg, deps[1..], path, o.running, o.log);
      i := i + 1;
    }
  }

  /** A bad chain makes resolution fail. */
  lemma {:induction false} ChainCausesFailure(reg: Registry, name: string, path: set<string>, running: set<Service>,
                                              log: seq<Service>, c: seq<string>)
    requires Bad(reg, Lower(name), path, c)
    ensures Resolve(reg, name, path, running, log).errors != []
    decreases |c|, 0
  {
    var n := Lower(name);
    if n !in path && n in reg {
      assert |c| > 1;
      BadTail(reg, n, path, c);
      var i :| 0 <= i < |reg[n].dependencies| && Lower(reg[n].dependencies[i]) == c[1];
      FailureSpreads(reg, reg[n].dependencies, i, path + {n}, running, log, c[1..]);
    }
  }

  lemma {:induction false} FailureSpreads(reg: Registry, deps: seq<string>, i: nat, path: set<string>,
                                          running: set<Service>, log: seq<Service>, c: seq<string>)
    requires i < |deps| && Bad(reg, Lower(deps[i]), path, c)
    ensures ResolveAll(reg, deps, path, running, log).errors != []
    decreases |c|, 1, |deps|
  {
    if i == 0 {
      ChainCausesFailure(reg, deps[0], path, running, log, c);
    } else {
      var o := Resolve(reg, deps[0], path, running, log);
      FailureSpreads(reg, deps[1..], i - 1, path, o.running, o.log, c);
    }
  }

  /** Resolution succeeds exactly if every service reachable through declared dependencies is registered
      and no dependency chain comes back to itself. */
  lemma ResolvableExactlyWhen(reg: Registry, name: string, running: set<Service>, log: seq<Service>)
    ensures Resolve(reg, name, {}, running, log).errors == [] <==>
            AllRegistered(reg, Lower(name)) && NoCycle(reg, Lower(name))
  {
    var n := Lower(name);
    if Resolve(reg, name, {}, running, log).errors != [] {
      var c := FailureHasChain(reg, name, {}, running, log);
      assert Chain(reg, n, c);
    } else {
      forall c | Chain(reg, n, c) ensures Last(c) in reg && Last(c) !in c[..|c|-1] {
        if Bad(reg, n, {}, c) {
          ChainCausesFailure(reg, name, {}, running, log, c);
          assert false;
        }
      }
    }
  }

  /** A reported missing service is reachable and not registered; a reported cycle is reachable and real. */
  lemma ErrorIsReal(reg: Registry, name: string, running: set<Service>, log: seq<Service>) returns (c: seq<string>)
    requires Resolve(reg, name, {}, running, log).errors != []
    ensures Chain(reg, Lower(name), c)
    ensures |Resolve(reg, name, {}, running, log).errors| == 1
    ensures match Resolve(reg, name, {}, running, log).errors[0]
            case Missing(x) => x == Last(c) && x !in reg
            case Circular(x) => x == Last(c) && x in c[..|c|-1]
  {
    c := FailureHasChain(reg, name, {}, running, log);
  }

  // ----- in what order services are started -----------------------------------------------------------

  /** Every service reachable from `n`, including `n`'s own, is in `up`. */
  ghost predicate Ready(reg: Registry, n: string, up: set<Service>) {
    forall c :: Chain(reg, n, c) ==> Last(c) in reg && reg[Last(c)] in up
  }

  ghost function Starts(log: seq<Service>): set<Service> { set s | s in log }

  /** Started services found everything reachable from their dependencies running at the outset or started
      before them; a service that comes up is started at most once, and only if it was not running. */
  ghost predicate Topological(reg: Registry, before: set<Service>, log: seq<Service>) {
    && (forall k, i :: 0 <= k < |log| && 0 <= i < |log[k].dependencies| ==>
          Ready(reg, Lower(log[k].dependencies[i]), before + Starts(log[..k])))
    && (forall k :: 0 <= k < |log| && log[k].comesUp ==> log[k] !in before && log[k] !in log[..k])
  }

  /** The statuses and the log agree, given what was running `before` anything was started. */
  ghost predicate Consistent(reg: Registry, before: set<Service>, running: set<Service>, log: seq<Service>) {
    && Topological(reg, before, log)
    && running == before + set s | s in log && s.comesUp
  }

  lemma ReadyGrows(reg: Registry, n: string, up: set<Service>, more: set<Service>)
    requires Ready(reg, n, up) && up <= more
    ensures Ready(reg, n, more)
  {
  }

  lemma StartsGrow(log: seq<Service>, more: seq<Service>)
    requires log <= more
    ensures Starts(log) <= Starts(more)
  {
    assert forall i :: 0 <= i < |log| ==> log[i] == more[i];
  }

  lemma ReadyFromDependencies(reg: Registry, n: string, up: set<Service>)
    requires n in reg && reg[n] in up
    requires forall i :: 0 <= i < |reg[n].dependencies| ==> Ready(reg, Lower(reg[n].dependencies[i]), up)
    ensures Ready(reg, n, up)
  {
    forall c | Chain(reg, n, c) ensures Last(c) in reg && reg[Last(c)] in up {
      if |c| > 1 {
        var i :| 0 <= i < |reg[n].dependencies| && Lower(reg[n].dependencies[i]) == c[1];
        assert Chain(reg, c[1], c[1..]) && Last(c[1..]) == Last(c);
      }
    }
  }

  lemma StartKeeps(reg: Registry, before: set<Service>, o: Outcome, s: Service)
    requires Consistent(reg, before, o.running, o.log)
    requires forall i :: 0 <= i < |s.dependencies| ==>
               Ready(reg, Lower(s.dependencies[i]), before + Starts(o.log))
    ensures var t := Start(s, o);
            Consistent(reg, before, t.running, t.log) && o.log <= t.log && s in before + Starts(t.log)
  {
    var t := Start(s, o);
    if s !in o.running {
      assert t.log[..|o.log|] == o.log && t.log[|o.log|] == s;
      assert forall k :: 0 <= k < |o.log| ==> t.log[k] == o.log[k] && t.log[..k] == o.log[..k];
    }
  }

  lemma {:induction false} ResolveKeeps(reg: Registry, name: string, path: set<string>, running: set<Service>,
                                        log: seq<Service>, before: set<Service>)
    requires Consistent(reg, before, running, log)
    ensures var o := Resolve(reg, name, path, running, log);
            && log <= o.log
            && Consistent(reg, before, o.running, o.log)
            && (o.errors == [] ==> Ready(reg, Lower(name), before + Starts(o.log)))
    decreases reg.Keys - path, 0
  {
    var n := Lower(name);
    if n !in path && n in reg {
      assert n in reg.Keys - path && n !in reg.Keys - (path + {n});
      var deps := reg[n].dependencies;
      var o := ResolveAll(reg, deps, path + {n}, running, log);
      ResolveAllKeeps(reg, deps, path + {n}, running, log, before);
      if o.errors == [] {
        StartKeeps(reg, before, o, reg[n]);
        var t := Start(reg[n], o);
        StartsGrow(o.log, t.log);
        forall i | 0 <= i < |deps| ensures Ready(reg, Lower(deps[i]), before + Starts(t.log)) {
          ReadyGrows(reg, Lower(deps[i]), before + Starts(o.log), before + Starts(t.log));
        }
        ReadyFromDependencies(reg, n, before + Starts(t.log));
      }
    }
  }

  lemma {:induction false} ResolveAllKeeps(reg: Registry, deps: seq<string>, path: set<string>, running: set<Service>,
                                           log: seq<Service>, before: set<Service>)
    requires Consistent(reg, before, running, log)
    ensures var o := ResolveAll(reg, deps, path, running, log);
            && log <= o.log
            && Consistent(reg, before, o.running, o.log)
            && (o.errors == [] ==>
                  forall i :: 0 <= i < |deps| ==> Ready(reg, Lower(deps[i]), before + Starts(o.log)))
    decreases reg.Keys - path, 1, |deps|
  {
    if deps != [] {
      var o := Resolve(reg, deps[0], path, running, log);
      ResolveKeeps(reg, deps[0], path, running, log, before);
      if o.errors == [] {
        var t := ResolveAll(reg, deps[1..], path, o.running, o.log);
        ResolveAllKeeps(reg, deps[1..], path, o.running, o.log, before);
        StartsGrow(o.log, t.log);
        ReadyGrows(reg, Lower(deps[0]), before + Starts(o.log), before + Starts(t.log));
        forall i | 0 <= i < |deps| && t.errors == [] ensures Ready(reg, Lower(deps[i]), before + Starts(t.log)) {
          if i > 0 {
            assert deps[i] == deps[1..][i - 1];
          }
        }
      }
    }
  }

  /** The log of starts of one resolution, successful or not, is topological and repeats no service that
      comes up; and after a successful one everything reachable is running or was started. */
  lemma StartOrder(reg: Registry, name: string, running: set<Service>)
    ensures var o := Resolve(reg, name, {}, running, []);
            && Topological(reg, running, o.log)
            && (o.errors == [] ==> Ready(reg, Lower(name), running + Starts(o.log)))
  {
    ResolveKeeps(reg, name, {}, running, [], running);
  }

  /** If every service comes up, a second resolution starts nothing. */
  lemma {:induction false} ResolvedAgainStartsNothing(reg: Registry, name: string, path: set<string>,
                                                      running: set<Service>, log: seq<Service>)
    requires Ready(reg, Lower(name), running)
    ensures Resolve(reg, name, path, running, log).log == log
    ensures Resolve(reg, name, path, running, log).running == running
    decreases reg.Keys - path, 0
  {
    var n := Lower(name);
    if n !in path && n in reg {
      assert n in reg.Keys - path && n !in reg.Keys - (path + {n});
      assert Chain(reg, n, [n]);
      forall d | DependsOn(reg, n, d) ensures Ready(reg, d, running) {
        forall c | Chain(reg, d, c) ensures Last(c) in reg && reg[Last(c)] in running {
          assert ([n] + c)[1..] == c;
          assert Chain(reg, n, [n] + c) && Last([n] + c) == Last(c);
        }
      }
      AllAgainStartNothing(reg, reg[n].dependencies, path + {n}, running, log);
    }
  }

  lemma {:induction false} AllAgainStartNothing(reg: Registry, deps: seq<string>, path: set<string>,
                                                running: set<Service>, log: seq<Service>)
    requires forall i :: 0 <= i < |deps| ==> Ready(reg, Lower(deps[i]), running)
    ensures ResolveAll(reg, deps, path, running, log).log == log
    ensures ResolveAll(reg, deps, path, running, log).running == running
    decreases reg.Keys - path, 1, |deps|
  {
    if deps != [] {
      ResolvedAgainStartsNothing(reg, deps[0], path, running, log);
      AllAgainStartNothing(reg, deps[1..], path, running, log);
    }
  }
}
