/** Shape specs and the validator that checks a TensorDict against them.

    A spec is an ordered list of axis tokens. A token names a symbol; the
    symbol is either fixed to a size when the spec is built (the keyword
    arguments of `TorchSpecs("b, t, h", h=2)`) or free. Within one call of
    `Validate`, every occurrence of a free symbol, across all paths, must
    stand for the same size. */
module Specs {
  import opened Results
  import opened Tensors

  /** One axis of a spec. */
  datatype Axis = Free(name: string) | Fixed(name: string, size: nat)

  /** The axis tokens of one tensor, outermost first. */
  type Spec = seq<Axis>

  /** The declared paths and their specs, in declaration order. Validation
      visits them in this order, so the failure it reports is deterministic.
      A path may be listed more than once. That is harmless: each listed
      spec is checked in turn, so a dictionary conforms only when the tensor
      fits all of them, and `Keys` is a set, so filtering keeps the path
      once. */
  datatype SpecDict = SpecDict(entries: seq<(string, Spec)>)

  /** The binding environment of one validation: free symbol to size. */
  type Env = map<string, nat>

  /** The spec dictionary that declares nothing. */
  const EmptySpecDict := SpecDict([])

  /** The declared paths. */
  function Keys(s: SpecDict): set<string> {
    set i | 0 <= i < |s.entries| :: s.entries[i].0
  }

  /** The spec written as the axis names `names`, with the symbols listed in
      `sizes` fixed to the given sizes and all others free. */
  function MakeSpec(names: seq<string>, sizes: map<string, nat>): (r: Spec)
    ensures |r| == |names|
    ensures forall j :: 0 <= j < |r| ==> r[j].name == names[j]
    ensures forall j :: 0 <= j < |r| ==> (r[j].Fixed? <==> names[j] in sizes)
    ensures forall j :: 0 <= j < |r| && r[j].Fixed? ==> r[j].size == sizes[names[j]]
  {
    seq(|names|, j requires 0 <= j < |names| =>
      if names[j] in sizes then Fixed(names[j], sizes[names[j]]) else Free(names[j]))
  }

  // ---------------------------------------------------------------------
  // Declarative meaning of conformance

  /** The axis of size `dim` matches token `a` when the symbols are given
      the sizes in `env`. */
  predicate AxisMatches(a: Axis, dim: nat, env: Env) {
    match a
    case Fixed(_, size) => dim == size
    case Free(n) => n in env && env[n] == dim
  }

  /** `big` agrees with `small` on every symbol `small` binds. */
  ghost predicate Extends(big: Env, small: Env) {
    forall n :: n in small ==> n in big && big[n] == small[n]
  }

  /** The tensor at `path` exists, has one axis per token, and every axis
      matches its token under `env`. */
  ghost predicate EntryConforms(path: string, spec: Spec, d: TensorDict, env: Env) {
    && path in d
    && |d[path].shape| == |spec|
    && forall j :: 0 <= j < |spec| ==> AxisMatches(spec[j], d[path].shape[j], env)
  }

  ghost predicate ConformsUnder(entries: seq<(string, Spec)>, d: TensorDict, env: Env) {
    forall i :: 0 <= i < |entries| ==> EntryConforms(entries[i].0, entries[i].1, d, env)
  }

  /** `d` conforms to `s` when one assignment of sizes to the free symbols
      makes every declared path present and every declared axis match. */
  ghost predicate Conforms(s: SpecDict, d: TensorDict) {
    exists env :: ConformsUnder(s.entries, d, env)
  }

  // ---------------------------------------------------------------------
  // The validation algorithm

  /** Checks the axes `from..` of the tensor at `path`, binding each free
      symbol the first time it is met and comparing it afterwards. */
  function CheckAxes(path: string, spec: Spec, shape: seq<nat>, from: nat, env: Env): (r: Result<Env>)
    requires |shape| == |spec| && from <= |spec|
    ensures r.Success? ==> Extends(r.value, env)
    ensures r.Success? ==> forall j :: from <= j < |spec| ==> AxisMatches(spec[j], shape[j], r.value)
    ensures r.Failure? ==> && r.error.AxisMismatch?
                           && r.error.path == path
                           && from <= r.error.axis < |spec|
                           && r.error.symbol == spec[r.error.axis].name
                           && (spec[r.error.axis].Fixed? ==> r.error.expected == spec[r.error.axis].size)
                           && r.error.actual == shape[r.error.axis]
                           && r.error.expected != r.error.actual
    ensures r.Success? ==> forall n :: n in r.value && n !in env ==>
              exists k :: from <= k < |spec| && spec[k] == Free(n) && shape[k] == r.value[n]
    ensures r.Failure? && spec[r.error.axis].Free? ==>
              || (r.error.symbol in env && env[r.error.symbol] == r.error.expected)
              || exists k :: from <= k < r.error.axis && spec[k] == Free(r.error.symbol) && shape[k] == r.error.expected
    decreases |spec| - from
  {
    if from == |spec| then Success(env)
    else
      var dim := shape[from];
      match spec[from]
      case Fixed(n, size) =>
        if dim == size then CheckAxes(path, spec, shape, from + 1, env)
        else Failure(AxisMismatch(path, from, n, size, dim))
      case Free(n) =>
        if n !in env then CheckAxes(path, spec, shape, from + 1, env[n := dim])
        else if env[n] == dim then CheckAxes(path, spec, shape, from + 1, env)
        else Failure(AxisMismatch(path, from, n, env[n], dim))
  }

  /** Free symbol `n` occurs at an existing axis of a declared, present
      path whose actual size is `v`: an occurrence that binds `n` to `v`. */
  ghost predicate Occurs(entries: seq<(string, Spec)>, d: TensorDict, n: string, v: nat) {
    exists i, j :: && 0 <= i < |entries|
                   && entries[i].0 in d
                   && 0 <= j < |entries[i].1| && j < |d[entries[i].0].shape|
                   && entries[i].1[j] == Free(n)
                   && d[entries[i].0].shape[j] == v
  }

  /** `e` describes a violation that really occurs in `d`, given that the
      symbols of `env` were bound before: a declared path that is absent, a
      declared path whose tensor has the wrong number of axes, or an axis
      whose actual size differs from the size its token expects. For a
      fixed token that is the fixed size; for a free symbol it is the size
      of an earlier binding, from `env` or from another occurrence in `d`. */
  ghost predicate ReportsUnder(entries: seq<(string, Spec)>, d: TensorDict, env: Env, e: Error) {
    match e
    case MissingKey(p) =>
      && p !in d
      && exists i :: 0 <= i < |entries| && entries[i].0 == p
    case ArityMismatch(p, expected, actual) =>
      && p in d && actual == |d[p].shape| && expected != actual
      && exists i :: 0 <= i < |entries| && entries[i].0 == p && |entries[i].1| == expected
    case AxisMismatch(p, axis, symbol, expected, actual) =>
      && p in d && axis < |d[p].shape| && actual == d[p].shape[axis] && expected != actual
      && exists i :: && 0 <= i < |entries| && entries[i].0 == p && axis < |entries[i].1|
                     && (|| entries[i].1[axis] == Fixed(symbol, expected)
                         || (&& entries[i].1[axis] == Free(symbol)
                             && (|| (symbol in env && env[symbol] == expected)
                                 || Occurs(entries, d, symbol, expected))))
    case HookFailed(_) => false
  }

  /** `e` describes a violation that really occurs in `d`. In particular a
      free-symbol mismatch names a second occurrence of the symbol, at a
      present path, whose actual size is the expected one. */
  ghost predicate Reports(entries: seq<(string, Spec)>, d: TensorDict, e: Error) {
    ReportsUnder(entries, d, map[], e)
  }

  /** Checks that every declared path is present, reporting the first
      absent one in declaration order. */
  function CheckPresent(entries: seq<(string, Spec)>, d: TensorDict): (r: Outcome)
    ensures r.Pass? <==> forall i :: 0 <= i < |entries| ==> entries[i].0 in d
    ensures r.Fail? ==> exists i :: && 0 <= i < |entries|
                                    && r.error == MissingKey(entries[i].0)
                                    && entries[i].0 !in d
                                    && forall j :: 0 <= j < i ==> entries[j].0 in d
    decreases |entries|
  {
    if |entries| == 0 then Pass
    else if entries[0].0 !in d then Fail(MissingKey(entries[0].0))
    else
      var r := CheckPresent(entries[1..], d);
      if r.Fail? then
        ghost var i :| && 0 <= i < |entries[1..]|
                       && r.error == MissingKey(entries[1..][i].0)
                       && entries[1..][i].0 !in d
                       && forall j :: 0 <= j < i ==> entries[1..][j].0 in d;
        assert forall j :: 0 <= j < i + 1 ==> entries[j].0 in d by {
          forall j | 0 <= j < i + 1 ensures entries[j].0 in d {
            if j > 0 { assert entries[j] == entries[1..][j - 1]; }
          }
        }
        assert entries[i + 1] == entries[1..][i];
        r
      else
        assert forall i :: 0 <= i < |entries| ==> entries[i].0 in d by {
          forall i | 0 <= i < |entries| ensures entries[i].0 in d {
            if i > 0 { assert entries[i] == entries[1..][i - 1]; }
          }
        }
        r
  }

  /** Validates the declared entries in order, threading the binding
      environment from one path to the next. */
  function ValidateFrom(entries: seq<(string, Spec)>, d: TensorDict, env: Env): (r: Result<Env>)
    ensures r.Success? ==> Extends(r.value, env) && ConformsUnder(entries, d, r.value)
    ensures r.Failure? ==> r.error.MissingKey? || r.error.ArityMismatch? || r.error.AxisMismatch?
    ensures r.Failure? ==> exists i :: 0 <= i < |entries| && entries[i].0 == r.error.path
    ensures r.Success? ==> forall n :: n in r.value && n !in env ==> Occurs(entries, d, n, r.value[n])
    ensures r.Failure? ==> ReportsUnder(entries, d, env, r.error)
    decreases |entries|
  {
    if |entries| == 0 then Success(env)
    else
      var path := entries[0].0;
      var spec := entries[0].1;
      var t :- Get(d, path);
      if |t.shape| != |spec| then
        assert entries[0].0 == path && |entries[0].1| == |spec|;
        Failure(ArityMismatch(path, |spec|, |t.shape|))
      else
        var c := CheckAxes(path, spec, t.shape, 0, env);
        if c.Failure? then
          ReportsHead(entries, d, env, c.error);
          c.PropagateFailure()
        else
          var env1 := c.value;
          HeadBindingsOccur(entries, d, env, env1);
          var r := ValidateFrom(entries[1..], d, env1);
          if r.Success? then
            ConformsUnderExtends([entries[0]], d, env1, r.value);
            assert EntryConforms(entries[0].0, entries[0].1, d, r.value);
            forall n | n in r.value && n !in env
              ensures Occurs(entries, d, n, r.value[n])
            {
              if n !in env1 {
                OccursTail(entries, d, n, r.value[n]);
              }
            }
            r
          else
            ReportsTail(entries, d, env, env1, r.error);
            r
  }

  /** Validation of `d` against `s`. It first requires every declared path
      to be present, then checks the shapes path by path. It passes exactly
      when `d` conforms; otherwise it reports a violation that occurs in
      `d`, and a missing path whenever one is missing. */
  function Validate(s: SpecDict, d: TensorDict): (r: Outcome)
    ensures r.Pass? <==> Conforms(s, d)
    ensures r.Fail? ==> r.error.MissingKey? || r.error.ArityMismatch? || r.error.AxisMismatch?
    ensures r.Fail? ==> r.error.path in Keys(s)
    ensures r.Fail? ==> Reports(s.entries, d, r.error)
    ensures (r.Fail? && r.error.MissingKey?) <==> !(Keys(s) <= d.Keys)
    ensures r.Fail? && r.error.MissingKey? ==>
              exists i :: && 0 <= i < |s.entries|
                          && s.entries[i].0 == r.error.path
                          && forall j :: 0 <= j < i ==> s.entries[j].0 in d
  {
    ValidateFromIffConforms(s.entries, d);
    match CheckPresent(s.entries, d)
    case Fail(e) => Fail(e)
    case Pass =>
      match ValidateFrom(s.entries, d, map[])
      case Success(_) => Pass
      case Failure(e) => Fail(e)
  }

  // ---------------------------------------------------------------------
  // Lemmas

  /** Conformance is preserved when the environment binds more symbols. */
  lemma ConformsUnderExtends(entries: seq<(string, Spec)>, d: TensorDict, small: Env, big: Env)
    requires ConformsUnder(entries, d, small) && Extends(big, small)
    ensures ConformsUnder(entries, d, big)
  {
  }

  /** Completeness of `CheckAxes`: if some environment extending the current
      one matches every remaining axis, the check passes and stays below it. */
  lemma {:induction false} CheckAxesComplete(path: string, spec: Spec, shape: seq<nat>, from: nat, env: Env, e: Env)
    requires |shape| == |spec| && from <= |spec|
    requires Extends(e, env)
    requires forall j :: from <= j < |spec| ==> AxisMatches(spec[j], shape[j], e)
    ensures CheckAxes(path, spec, shape, from, env).Success?
    ensures Extends(e, CheckAxes(path, spec, shape, from, env).value)
    decreases |spec| - from
  {
    if from < |spec| {
      assert AxisMatches(spec[from], shape[from], e);
      match spec[from]
      case Fixed(n, size) =>
        CheckAxesComplete(path, spec, shape, from + 1, env, e);
      case Free(n) =>
        if n !in env {
          CheckAxesComplete(path, spec, shape, from + 1, env[n := shape[from]], e);
        } else {
          CheckAxesComplete(path, spec, shape, from + 1, env, e);
        }
    }
  }

  /** Completeness of `ValidateFrom`: a witness environment extending the
      current one guarantees success. */
  lemma {:induction false} ValidateFromComplete(entries: seq<(string, Spec)>, d: TensorDict, env: Env, e: Env)
    requires Extends(e, env) && ConformsUnder(entries, d, e)
    ensures ValidateFrom(entries, d, env).Success?
    decreases |entries|
  {
    if |entries| > 0 {
      var path := entries[0].0;
      var spec := entries[0].1;
      assert EntryConforms(path, spec, d, e);
      CheckAxesComplete(path, spec, d[path].shape, 0, env, e);
      var env1 := CheckAxes(path, spec, d[path].shape, 0, env).value;
      assert ConformsUnder(entries[1..], d, e) by {
        forall i | 0 <= i < |entries[1..]|
          ensures EntryConforms(entries[1..][i].0, entries[1..][i].1, d, e)
        {
          assert entries[1..][i] == entries[i + 1];
        }
      }
      ValidateFromComplete(entries[1..], d, env1, e);
    }
  }

  /** Starting from the empty environment, the algorithm succeeds exactly
      on the conforming dictionaries. */
  lemma ValidateFromIffConforms(entries: seq<(string, Spec)>, d: TensorDict)
    ensures ValidateFrom(entries, d, map[]).Success? <==> exists env :: ConformsUnder(entries, d, env)
  {
    if exists env :: ConformsUnder(entries, d, env) {
      var env :| ConformsUnder(entries, d, env);
      ValidateFromComplete(entries, d, map[], env);
    }
  }

  /** A conforming dictionary holds every declared path. */
  lemma ConformsHasDeclaredKeys(s: SpecDict, d: TensorDict)
    requires Conforms(s, d)
    ensures Keys(s) <= d.Keys
  {
  }

  /** The algorithm reads a dictionary only at declared paths. */
  lemma {:induction false} ValidateFromReadsDeclared(entries: seq<(string, Spec)>, d1: TensorDict, d2: TensorDict, env: Env)
    requires forall i :: 0 <= i < |entries| ==> (entries[i].0 in d1 <==> entries[i].0 in d2)
    requires forall i :: 0 <= i < |entries| && entries[i].0 in d1 ==> d1[entries[i].0] == d2[entries[i].0]
    ensures ValidateFrom(entries, d1, env) == ValidateFrom(entries, d2, env)
    decreases |entries|
  {
    if |entries| > 0 {
      var path := entries[0].0;
      if path in d1 && |d1[path].shape| == |entries[0].1| {
        var r := CheckAxes(path, entries[0].1, d1[path].shape, 0, env);
        if r.Success? {
          forall i | 0 <= i < |entries[1..]|
            ensures entries[1..][i] == entries[i + 1]
          {
          }
          ValidateFromReadsDeclared(entries[1..], d1, d2, r.value);
        }
      }
    }
  }

  /** Undeclared keys are never validated: only the declared part of a
      dictionary decides the outcome, whatever shapes the rest has. */
  lemma ValidateIgnoresUndeclared(s: SpecDict, d: TensorDict, extra: TensorDict)
    requires extra.Keys !! Keys(s)
    ensures Validate(s, d) == Validate(s, Filter(d, Keys(s)))
    ensures Validate(s, d) == Validate(s, d + extra)
  {
    forall i | 0 <= i < |s.entries| ensures s.entries[i].0 in Keys(s) { }
    var restricted := Filter(d, Keys(s));
    ValidateFromReadsDeclared(s.entries, d, restricted, map[]);
    ValidateFromReadsDeclared(s.entries, d, d + extra, map[]);
    CheckPresentReadsDeclared(s.entries, d, restricted);
    CheckPresentReadsDeclared(s.entries, d, d + extra);
  }

  /** The presence check reads a dictionary only at declared paths. */
  lemma {:induction false} CheckPresentReadsDeclared(entries: seq<(string, Spec)>, d1: TensorDict, d2: TensorDict)
    requires forall i :: 0 <= i < |entries| ==> (entries[i].0 in d1 <==> entries[i].0 in d2)
    ensures CheckPresent(entries, d1) == CheckPresent(entries, d2)
    decreases |entries|
  {
    if |entries| > 0 && entries[0].0 in d1 {
      forall i | 0 <= i < |entries[1..]|
        ensures entries[1..][i] == entries[i + 1]
      {
      }
      CheckPresentReadsDeclared(entries[1..], d1, d2);
    }
  }

  /** A free symbol declared at two places must have one size: when the
      two axes differ, validation fails. */
  lemma SharedSymbolMustAgree(s: SpecDict, d: TensorDict, n: string, i1: nat, j1: nat, i2: nat, j2: nat)
    requires i1 < |s.entries| && j1 < |s.entries[i1].1| && s.entries[i1].1[j1] == Free(n)
    requires i2 < |s.entries| && j2 < |s.entries[i2].1| && s.entries[i2].1[j2] == Free(n)
    requires s.entries[i1].0 in d && j1 < |d[s.entries[i1].0].shape|
    requires s.entries[i2].0 in d && j2 < |d[s.entries[i2].0].shape|
    requires d[s.entries[i1].0].shape[j1] != d[s.entries[i2].0].shape[j2]
    ensures Validate(s, d).Fail?
  {
  }

  /** An occurrence among the remaining entries is an occurrence among
      all of them. */
  lemma OccursTail(entries: seq<(string, Spec)>, d: TensorDict, n: string, v: nat)
    requires |entries| > 0 && Occurs(entries[1..], d, n, v)
    ensures Occurs(entries, d, n, v)
  {
    var i, j :| && 0 <= i < |entries[1..]|
                && entries[1..][i].0 in d
                && 0 <= j < |entries[1..][i].1| && j < |d[entries[1..][i].0].shape|
                && entries[1..][i].1[j] == Free(n)
                && d[entries[1..][i].0].shape[j] == v;
    assert entries[i + 1] == entries[1..][i];
  }

  /** The symbols the axis check of the first entry binds are bound by
      occurrences in that entry. */
  lemma HeadBindingsOccur(entries: seq<(string, Spec)>, d: TensorDict, env: Env, env1: Env)
    requires |entries| > 0 && entries[0].0 in d && |d[entries[0].0].shape| == |entries[0].1|
    requires CheckAxes(entries[0].0, entries[0].1, d[entries[0].0].shape, 0, env) == Success(env1)
    ensures forall n :: n in env1 && n !in env ==> Occurs(entries, d, n, env1[n])
  {
    forall n | n in env1 && n !in env ensures Occurs(entries, d, n, env1[n]) {
      var k :| 0 <= k < |entries[0].1| && entries[0].1[k] == Free(n) && d[entries[0].0].shape[k] == env1[n];
      assert 0 <= 0 < |entries| && entries[0].0 in d;
    }
  }

  /** A mismatch the axis check finds in the first entry is a reported
      violation of the whole list. */
  lemma ReportsHead(entries: seq<(string, Spec)>, d: TensorDict, env: Env, e: Error)
    requires |entries| > 0 && entries[0].0 in d && |d[entries[0].0].shape| == |entries[0].1|
    requires CheckAxes(entries[0].0, entries[0].1, d[entries[0].0].shape, 0, env) == Failure(e)
    ensures ReportsUnder(entries, d, env, e)
  {
    var spec, shape := entries[0].1, d[entries[0].0].shape;
    if spec[e.axis].Free? && !(e.symbol in env && env[e.symbol] == e.expected) {
      var k :| 0 <= k < e.axis && spec[k] == Free(e.symbol) && shape[k] == e.expected;
      assert Occurs(entries, d, e.symbol, e.expected) by {
        assert 0 <= 0 < |entries| && entries[0].0 in d && k < |entries[0].1| && k < |shape|;
      }
    }
    assert 0 <= 0 < |entries| && entries[0].0 == e.path && e.axis < |entries[0].1|;
  }

  /** A violation reported about the remaining entries, under an
      environment whose new bindings occur in the first entry, is a
      violation about all of them. */
  lemma ReportsTail(entries: seq<(string, Spec)>, d: TensorDict, env: Env, env1: Env, e: Error)
    requires |entries| > 0 && ReportsUnder(entries[1..], d, env1, e)
    requires Extends(env1, env)
    requires forall n :: n in env1 && n !in env ==> Occurs(entries, d, n, env1[n])
    ensures ReportsUnder(entries, d, env, e)
  {
    match e
    case MissingKey(p) =>
      var i :| 0 <= i < |entries[1..]| && entries[1..][i].0 == p;
      assert entries[i + 1] == entries[1..][i];
    case ArityMismatch(p, expected, actual) =>
      var i :| 0 <= i < |entries[1..]| && entries[1..][i].0 == p && |entries[1..][i].1| == expected;
      assert entries[i + 1] == entries[1..][i];
    case AxisMismatch(p, axis, symbol, expected, actual) =>
      var i :| && 0 <= i < |entries[1..]| && entries[1..][i].0 == p && axis < |entries[1..][i].1|
               && (|| entries[1..][i].1[axis] == Fixed(symbol, expected)
                   || (&& entries[1..][i].1[axis] == Free(symbol)
                       && (|| (symbol in env1 && env1[symbol] == expected)
                           || Occurs(entries[1..], d, symbol, expected))));
      assert entries[i + 1] == entries[1..][i];
      if entries[i + 1].1[axis] == Free(symbol) {
        if Occurs(entries[1..], d, symbol, expected) {
          OccursTail(entries, d, symbol, expected);
        }
      }
  }

  /** A shape fits the axis names `names` with keyword sizes `sizes`: one
      axis per name, each keyword-sized axis of its size, and the axes of a
      repeated free name of one size. */
  ghost predicate FitsNamedAxes(names: seq<string>, sizes: map<string, nat>, shape: seq<nat>) {
    && |shape| == |names|
    && (forall j :: 0 <= j < |names| && names[j] in sizes ==> shape[j] == sizes[names[j]])
    && (forall j1, j2 :: 0 <= j1 < |names| && 0 <= j2 < |names| && names[j1] !in sizes && names[j1] == names[j2]
          ==> shape[j1] == shape[j2])
  }

  /** A one-path spec dictionary built by `MakeSpec` accepts a dictionary
      exactly when the path is present and its shape fits the names. */
  lemma MakeSpecValidates(p: string, names: seq<string>, sizes: map<string, nat>, d: TensorDict)
    ensures Validate(SpecDict([(p, MakeSpec(names, sizes))]), d).Pass?
            <==> p in d && FitsNamedAxes(names, sizes, d[p].shape)
  {
    var spec := MakeSpec(names, sizes);
    var s := SpecDict([(p, spec)]);
    if Conforms(s, d) {
      var env :| ConformsUnder(s.entries, d, env);
      assert s.entries[0] == (p, spec);
      assert EntryConforms(s.entries[0].0, s.entries[0].1, d, env);
      var shape := d[p].shape;
      forall j | 0 <= j < |names| && names[j] in sizes ensures shape[j] == sizes[names[j]] {
        assert AxisMatches(spec[j], shape[j], env);
      }
      forall j1, j2 | 0 <= j1 < |names| && 0 <= j2 < |names| && names[j1] !in sizes && names[j1] == names[j2]
        ensures shape[j1] == shape[j2]
      {
        assert AxisMatches(spec[j1], shape[j1], env);
        assert AxisMatches(spec[j2], shape[j2], env);
      }
    }
    if p in d && FitsNamedAxes(names, sizes, d[p].shape) {
      var shape := d[p].shape;
      var env: Env := map j | 0 <= j < |names| && names[j] !in sizes :: names[j] := shape[j];
      forall j | 0 <= j < |spec| ensures AxisMatches(spec[j], shape[j], env) {
        if names[j] !in sizes {
          assert names[j] in env;
          var j' :| 0 <= j' < |names| && names[j'] !in sizes && names[j'] == names[j] && env[names[j]] == shape[j'];
        }
      }
      assert EntryConforms(p, spec, d, env);
      assert ConformsUnder(s.entries, d, env);
    }
  }

  /** A free symbol that occurs once cannot be blamed: with `a:(x)` and a
      fixed `b:(h=4)`, a dictionary `{a:(3), b:(5)}` fails on `b`, the one
      axis actually in conflict. */
  lemma SingleOccurrenceNotBlamed(ta: Tensor, tb: Tensor)
    requires ta.shape == [3] && tb.shape == [5]
    ensures Validate(SpecDict([("a", [Free("x")]), ("b", [Fixed("h", 4)])]), map["a" := ta, "b" := tb])
            == Fail(AxisMismatch("b", 0, "h", 4, 5))
  {
  }
}
