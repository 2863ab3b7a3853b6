/** Properties of action traces: how often an action occurs, and in which order. */
module Traces {
  import opened Assets
  import opened Transport

  datatype Kind = RespondKind | WriteKind | EndKind | PushKind | AttachKind | FileKind

  function KindOf(a: Action): Kind
  {
    match a
    case Responded(_, _) => RespondKind
    case Wrote(_) => WriteKind
    case Ended(_) => EndKind
    case PushRequested(_) => PushKind
    case ErrorHandlerAttached => AttachKind
    case FileResponded(_, _, _) => FileKind
  }

  /** The number of actions of kind `k` in `t`. */
  function Count(t: seq<Action>, k: Kind): (n: nat)
    ensures n <= |t|
  {
    if t == [] then 0 else (if KindOf(t[0]) == k then 1 else 0) + Count(t[1..], k)
  }

  lemma CountCons(a: Action, t: seq<Action>, k: Kind)
    ensures Count([a] + t, k) == (if KindOf(a) == k then 1 else 0) + Count(t, k)
  {
    assert ([a] + t)[1..] == t;
  }

  lemma {:induction false} CountAppend(t: seq<Action>, u: seq<Action>, k: Kind)
    ensures Count(t + u, k) == Count(t, k) + Count(u, k)
    decreases |t|
  {
    if t == [] {
      assert t + u == u;
    } else {
      var a, t' := t[0], t[1..];
      assert t == [a] + t';
      assert t + u == [a] + (t' + u);
      CountAppend(t', u, k);
      CountCons(a, t' + u, k);
      CountCons(a, t', k);
    }
  }

  /** No action of kind `k` occurs in `t` exactly when `k` is counted zero times. */
  lemma {:induction false} CountZero(t: seq<Action>, k: Kind)
    ensures Count(t, k) == 0 <==> forall i :: 0 <= i < |t| ==> KindOf(t[i]) != k
    decreases |t|
  {
    if t != [] {
      var a, t' := t[0], t[1..];
      CountZero(t', k);
      assert forall i :: 1 <= i < |t| ==> t[i] == t'[i - 1];
      if KindOf(a) != k && Count(t', k) != 0 {
        var i :| 0 <= i < |t'| && KindOf(t'[i]) == k;
        assert t[i + 1] == t'[i];
      }
    }
  }

  /** The public paths of the pushes requested in `t`, in order. */
  function PushedPaths(t: seq<Action>): seq<string>
  {
    if t == [] then []
    else (if t[0].PushRequested? then [t[0].path] else []) + PushedPaths(t[1..])
  }

  lemma PushedPathsCons(a: Action, t: seq<Action>)
    ensures PushedPaths([a] + t) == (if a.PushRequested? then [a.path] else []) + PushedPaths(t)
  {
    assert ([a] + t)[1..] == t;
  }

  lemma {:induction false} PushedPathsAppend(t: seq<Action>, u: seq<Action>)
    ensures PushedPaths(t + u) == PushedPaths(t) + PushedPaths(u)
    decreases |t|
  {
    if t == [] {
      assert t + u == u;
    } else {
      var a, t' := t[0], t[1..];
      assert t == [a] + t';
      assert t + u == [a] + (t' + u);
      PushedPathsAppend(t', u);
      PushedPathsCons(a, t' + u);
      PushedPathsCons(a, t');
      var p := if a.PushRequested? then [a.path] else [];
      assert p + (PushedPaths(t') + PushedPaths(u)) == (p + PushedPaths(t')) + PushedPaths(u);
    }
  }

  /** Counting over a run of actions with one action before it and one after it. */
  lemma CountAround(a: Action, p: seq<Action>, b: Action, k: Kind)
    ensures Count([a] + p + [b], k) ==
      (if KindOf(a) == k then 1 else 0) + Count(p, k) + (if KindOf(b) == k then 1 else 0)
  {
    assert [a] + p + [b] == [a] + (p + [b]);
    assert [b] == [b] + [];
    CountCons(a, p + [b], k);
    CountAppend(p, [b], k);
    CountCons(b, [], k);
  }

  /** The pushed paths of a run of actions with one action before it and one after it. */
  lemma PushedPathsAround(a: Action, p: seq<Action>, b: Action)
    requires !a.PushRequested? && !b.PushRequested?
    ensures PushedPaths([a] + p + [b]) == PushedPaths(p)
  {
    assert [a] + p + [b] == [a] + (p + [b]);
    assert [b] == [b] + [];
    PushedPathsCons(a, p + [b]);
    PushedPathsAppend(p, [b]);
    PushedPathsCons(b, []);
  }

  /** No action follows an `end`: an `end`, if any, is the last action. */
  predicate NothingAfterEnd(t: seq<Action>)
  {
    forall i :: 0 <= i < |t| && t[i].Ended? ==> i == |t| - 1
  }

  /** No `write` follows an `end`. */
  predicate NoWriteAfterEnd(t: seq<Action>)
  {
    forall i, j :: 0 <= i < j < |t| && t[i].Ended? ==> !t[j].Wrote?
  }

  /** Action `a` occurs somewhere before an occurrence of action `b`. */
  predicate Precedes(t: seq<Action>, a: Action, b: Action)
  {
    exists i, j :: 0 <= i < j < |t| && t[i] == a && t[j] == b
  }

  lemma NothingAfterEndNoWrite(t: seq<Action>)
    requires NothingAfterEnd(t)
    ensures NoWriteAfterEnd(t)
  {
  }

  /** A trace without `end` may be followed by any trace in which nothing follows its `end`. */
  lemma NothingAfterEndAppend(t: seq<Action>, u: seq<Action>)
    requires Count(t, EndKind) == 0
    requires NothingAfterEnd(u)
    ensures NothingAfterEnd(t + u)
  {
    CountZero(t, EndKind);
    forall i | 0 <= i < |t + u| && (t + u)[i].Ended? ensures i == |t + u| - 1 {
      if i < |t| {
        assert false;
      } else {
        assert u[i - |t|] == (t + u)[i];
      }
    }
  }

  /** The public paths of a list of assets. */
  function Paths(files: seq<FileDescription>): (paths: seq<string>)
    ensures |paths| == |files|
    ensures forall i :: 0 <= i < |files| ==> paths[i] == files[i].path
  {
    if files == [] then [] else [files[0].path] + Paths(files[1..])
  }

  /** One push request per asset, in order. */
  function PushRequests(files: seq<FileDescription>): seq<Action>
  {
    if files == [] then [] else [PushRequested(files[0].path)] + PushRequests(files[1..])
  }

  /** A run of push requests holds one push per asset, in order, and nothing else. */
  lemma {:induction false} PushRequestsProtocol(files: seq<FileDescription>)
    ensures var t := PushRequests(files);
      |t| == |files| &&
      (forall i :: 0 <= i < |files| ==> t[i] == PushRequested(files[i].path)) &&
      (forall k :: Count(t, k) == if k == PushKind then |files| else 0) &&
      PushedPaths(t) == Paths(files)
    decreases |files|
  {
    if files != [] {
      PushRequestsProtocol(files[1..]);
      var a, rest := PushRequested(files[0].path), PushRequests(files[1..]);
      forall k ensures Count([a] + rest, k) == if k == PushKind then |files| else 0 {
        CountCons(a, rest, k);
      }
      PushedPathsCons(a, rest);
      forall i | 1 <= i < |files| ensures ([a] + rest)[i] == PushRequested(files[i].path) {
        assert ([a] + rest)[i] == rest[i - 1];
        assert files[1..][i - 1] == files[i];
      }
    }
  }
}
