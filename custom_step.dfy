/**
 * The step-title and parameter builder of the custom allure step
 * (assist/allure/custom_step.py): turning a function name into words,
 * collecting a call's arguments into an ordered parameter list, and
 * composing the name under which the step is reported.
 *
 * Argument values are of an arbitrary type V. The reporting library's
 * `represent`, Python's `str` and Python's truthiness of a value are
 * passed in as functions, since their definitions are not part of this
 * model. A Python dict is an association list kept in insertion order.
 */
module CustomStep {
  import opened Wrappers
  import opened PyStrings

  // ---------------------------------------------------------------------
  // _humanify
  // ---------------------------------------------------------------------

  /** `s` without its leading run of underscores. */
  function SkipRun(s: string): (r: string)
    ensures |r| <= |s|
    ensures r == [] || r[0] != '_'
    ensures s != [] && s[0] == '_' ==> |r| < |s|
    ensures forall c :: c in r ==> c in s
  {
    if s != [] && s[0] == '_' then
      assert forall c :: c in s[1..] ==> c in s;
      SkipRun(s[1..])
    else s
  }

  /** `re.sub(r'_+', ' ', s)`: every maximal run of underscores becomes one space. */
  function Collapse(s: string): (r: string)
    ensures '_' !in r
    ensures |r| <= |s|
    ensures forall c :: c in r ==> c in s || c == ' '
    decreases |s|
  {
    if s == [] then []
    else if s[0] == '_' then " " + Collapse(SkipRun(s))
    else [s[0]] + Collapse(s[1..])
  }

  /**
   * `_humanify`: underscore runs become single spaces and surrounding
   * whitespace goes; the result holds no underscore, and every character
   * it holds is a character of `s` or a space. A name without underscores
   * is only stripped.
   */
  function Humanify(s: string): (r: string)
    ensures '_' !in r
    ensures r == [] || (!IsSpace(r[0]) && !IsSpace(r[|r| - 1]))
    ensures forall c :: c in r ==> c in s || c == ' '
    ensures '_' !in s ==> r == Strip(s)
  {
    if '_' !in s then CollapseWithoutUnderscores(s); Strip(Collapse(s))
    else Strip(Collapse(s))
  }

  /** Without underscores there is nothing to replace. */
  lemma {:induction false} CollapseWithoutUnderscores(s: string)
    requires '_' !in s
    ensures Collapse(s) == s
  {
    if s != [] {
      assert s[0] != '_';
      CollapseWithoutUnderscores(s[1..]);
      assert [s[0]] + s[1..] == s;
    }
  }

  /** Applying `_humanify` twice gives what applying it once gives. */
  lemma HumanifyIdempotent(s: string)
    ensures Humanify(Humanify(s)) == Humanify(s)
  {
    var h := Humanify(s);
    CollapseWithoutUnderscores(h);
    StripIdle(h);
  }

  /** A run never reaches across a boundary after a character other than `_`. */
  lemma {:induction false} CollapseAppend(a: string, b: string)
    requires a == [] || a[|a| - 1] != '_'
    ensures Collapse(a + b) == Collapse(a) + Collapse(b)
    decreases |a|, 1
  {
    if a == [] {
      assert a + b == b;
    } else if a[0] == '_' {
      CollapseAppendRun(a, b);
    } else {
      CollapseAppendChar(a, b);
    }
  }

  lemma {:induction false} CollapseAppendRun(a: string, b: string)
    requires a != [] && a[0] == '_' && a[|a| - 1] != '_'
    ensures Collapse(a + b) == Collapse(a) + Collapse(b)
    decreases |a|, 0
  {
    var rest := SkipRun(a);
    SkipRunKeepsLast(a);
    SkipRunAppend(a, b);
    CollapseAppend(rest, b);
    calc {
      Collapse(a + b);
      " " + Collapse(rest + b);
      " " + (Collapse(rest) + Collapse(b));
      (" " + Collapse(rest)) + Collapse(b);
    }
  }

  lemma {:induction false} CollapseAppendChar(a: string, b: string)
    requires a != [] && a[0] != '_' && a[|a| - 1] != '_'
    ensures Collapse(a + b) == Collapse(a) + Collapse(b)
    decreases |a|, 0
  {
    var tail := a[1..];
    assert a == [a[0]] + tail;
    assert a + b == [a[0]] + (tail + b);
    CollapseCons(a[0], tail + b);
    CollapseCons(a[0], tail);
    CollapseAppend(tail, b);
  }

  lemma {:induction false} CollapseCons(c: char, t: string)
    requires c != '_'
    ensures Collapse([c] + t) == [c] + Collapse(t)
  {
    assert ([c] + t)[1..] == t;
  }

  lemma {:induction false} SkipRunKeepsLast(a: string)
    requires a != [] && a[|a| - 1] != '_'
    ensures SkipRun(a) != [] && SkipRun(a)[|SkipRun(a)| - 1] == a[|a| - 1]
    decreases |a|
  {
    if a[0] == '_' {
      SkipRunKeepsLast(a[1..]);
    }
  }

  lemma {:induction false} SkipRunAppend(a: string, b: string)
    requires a != [] && a[|a| - 1] != '_'
    ensures SkipRun(a + b) == SkipRun(a) + b
    decreases |a|
  {
    if a[0] == '_' {
      assert (a + b)[1..] == a[1..] + b;
      SkipRunAppend(a[1..], b);
    }
  }

  /** A run of n >= 1 underscores followed by anything else becomes exactly one space. */
  lemma {:induction false} CollapseRun(n: nat, b: string)
    requires n >= 1
    requires b == [] || b[0] != '_'
    ensures Collapse(seq(n, _ => '_') + b) == " " + Collapse(b)
  {
    SkipRunOfRun(n, b);
  }

  lemma {:induction false} SkipRunOfRun(n: nat, b: string)
    requires b == [] || b[0] != '_'
    ensures SkipRun(seq(n, _ => '_') + b) == b
  {
    if n > 0 {
      var run := seq(n, _ => '_');
      assert (run + b)[0] == '_';
      assert (run + b)[1..] == seq(n - 1, _ => '_') + b;
      SkipRunOfRun(n - 1, b);
    } else {
      assert seq(n, _ => '_') + b == b;
    }
  }

  // ---------------------------------------------------------------------
  // Python dicts: association lists in insertion order
  // ---------------------------------------------------------------------

  type Dict<T> = seq<(string, T)>

  function Keys<T>(d: Dict<T>): (r: seq<string>)
    ensures |r| == |d|
    ensures forall i {:trigger r[i]} :: 0 <= i < |d| ==> r[i] == d[i].0
  {
    if d == [] then [] else [d[0].0] + Keys(d[1..])
  }

  /** A dict never holds a key twice. */
  predicate Distinct(xs: seq<string>)
  {
    forall i, j :: 0 <= i < j < |xs| ==> xs[i] != xs[j]
  }

  /** `d.get(k)`. */
  function Get<T>(d: Dict<T>, k: string): (r: Option<T>)
    ensures r.Some? <==> k in Keys(d)
  {
    if d == [] then None
    else if d[0].0 == k then Some(d[0].1)
    else Get(d[1..], k)
  }

  /** `d[k] = v`: an existing key keeps its place, a new one goes last. */
  function Put<T>(d: Dict<T>, k: string, v: T): (r: Dict<T>)
    ensures Keys(r) == if k in Keys(d) then Keys(d) else Keys(d) + [k]
  {
    if d == [] then [(k, v)]
    else if d[0].0 == k then
      assert ([(k, v)] + d[1..])[1..] == d[1..];
      [(k, v)] + d[1..]
    else
      var rest := Put(d[1..], k, v);
      assert ([d[0]] + rest)[1..] == rest;
      [d[0]] + rest
  }

  /** `{**d, **e}`: the entries of `e` put into `d` one by one. */
  function Union<T>(d: Dict<T>, e: Dict<T>): Dict<T>
    decreases |e|
  {
    if e == [] then d else Union(Put(d, e[0].0, e[0].1), e[1..])
  }

  /** `dict(pairs)`: a later pair for the same key overrides an earlier one. */
  function FromPairs<T>(pairs: Dict<T>): (r: Dict<T>)
    ensures Distinct(Keys(r))
  {
    DistinctUnion([], pairs);
    Union([], pairs)
  }

  /** `d.pop(k, None)`, as a new dict. */
  function Remove<T>(d: Dict<T>, k: string): (r: Dict<T>)
    ensures k !in Keys(r)
    ensures forall x :: x in Keys(r) ==> x in Keys(d)
  {
    if d == [] then []
    else if d[0].0 == k then Remove(d[1..], k)
    else
      var rest := Remove(d[1..], k);
      assert ([d[0]] + rest)[1..] == rest;
      [d[0]] + rest
  }

  /** `zip(names, values)`: pairs up to the shorter of the two. */
  function Zip<T>(names: seq<string>, values: seq<T>): (r: Dict<T>)
    ensures |r| == if |names| < |values| then |names| else |values|
    ensures forall i {:trigger r[i]} :: 0 <= i < |r| ==> r[i] == (names[i], values[i])
  {
    if names == [] || values == [] then []
    else [(names[0], values[0])] + Zip(names[1..], values[1..])
  }

  lemma {:induction false} GetPut<T>(d: Dict<T>, k: string, v: T, key: string)
    ensures Get(Put(d, k, v), key) == if key == k then Some(v) else Get(d, key)
  {
    if d != [] && d[0].0 != k {
      GetPut(d[1..], k, v, key);
    }
  }

  lemma {:induction false} KeysUnion<T>(d: Dict<T>, e: Dict<T>, k: string)
    ensures k in Keys(Union(d, e)) <==> k in Keys(d) || k in Keys(e)
    decreases |e|
  {
    if e != [] {
      KeysUnion(Put(d, e[0].0, e[0].1), e[1..], k);
    }
  }

  lemma {:induction false} DistinctUnion<T>(d: Dict<T>, e: Dict<T>)
    requires Distinct(Keys(d))
    ensures Distinct(Keys(Union(d, e)))
    decreases |e|
  {
    if e != [] {
      DistinctUnion(Put(d, e[0].0, e[0].1), e[1..]);
    }
  }

  /** Later entries win: a key of `e` takes its value from `e`, any other key keeps its value in `d`. */
  lemma {:induction false} GetUnion<T>(d: Dict<T>, e: Dict<T>, k: string)
    requires Distinct(Keys(e))
    ensures Get(Union(d, e), k) == if k in Keys(e) then Get(e, k) else Get(d, k)
    decreases |e|
  {
    if e != [] {
      var d' := Put(d, e[0].0, e[0].1);
      assert Keys(e[1..]) == Keys(e)[1..];
      GetUnion(d', e[1..], k);
      GetPut(d, e[0].0, e[0].1, k);
    }
  }

  lemma {:induction false} GetRemove<T>(d: Dict<T>, k: string, key: string)
    requires key != k
    ensures Get(Remove(d, k), key) == Get(d, key)
  {
    if d != [] {
      GetRemove(d[1..], k, key);
    }
  }

  // ---------------------------------------------------------------------
  // _fn_params_to_ordered_dict
  // ---------------------------------------------------------------------

  /** A value bound to a parameter: one argument, or the tuple `*args` collects. */
  datatype Arg<V> = One(v: V) | Many(vs: seq<V>)

  /**
   * What `inspect.getfullargspec` reports of a function: its positional
   * parameter names, the name of `*args` if any, the defaults of the last
   * positional parameters, the keyword-only names and their defaults. A
   * missing tuple or dict (`None`) is the empty sequence.
   */
  datatype ArgSpec<V> = ArgSpec(args: seq<string>, varargs: Option<string>, defaults: seq<V>,
                                kwonlyargs: seq<string>, kwonlydefaults: Dict<V>)

  /** What reporting a step can raise before the decorated function runs. */
  datatype ParamError =
    | NotInOrder(key: string)     // `list.index` raises ValueError: the name is no parameter
    | MultipleValues(key: string) // the call raises TypeError: a keyword repeats a named parameter

  function Wrap<V>(d: Dict<V>): (r: Dict<Arg<V>>)
    ensures Keys(r) == Keys(d)
    ensures forall i {:trigger r[i]} :: 0 <= i < |d| ==> r[i] == (d[i].0, One(d[i].1))
  {
    if d == [] then [] else [(d[0].0, One(d[0].1))] + Wrap(d[1..])
  }

  function Lift<V>(o: Option<V>): Option<Arg<V>>
  {
    match o
    case None => None
    case Some(v) => Some(One(v))
  }

  lemma {:induction false} GetWrap<V>(d: Dict<V>, k: string)
    ensures Get(Wrap(d), k) == Lift(Get(d, k))
  {
    if d != [] {
      GetWrap(d[1..], k);
    }
  }

  /** The positional arguments by name, without the `self` or `cls` they are bound to. */
  function Positional<V>(spec: ArgSpec<V>, args: seq<V>): (r: Dict<Arg<V>>)
    ensures forall k :: k in Keys(r) ==> k in spec.args
    ensures spec.args != [] && spec.args[0] in ["cls", "self"] ==> spec.args[0] !in Keys(r)
  {
    var named := FromPairs(Wrap(Zip(spec.args, args)));
    forall k | k in Keys(named)
      ensures k in spec.args
    {
      KeysZipped(spec.args, args, k);
    }
    if spec.args != [] && spec.args[0] in ["cls", "self"] then Remove(named, spec.args[0]) else named
  }

  /** The positional names that received no positional argument. */
  function NotSet<V>(spec: ArgSpec<V>, args: seq<V>): seq<string>
  {
    if |args| <= |spec.args| then spec.args[|args|..] else []
  }

  /**
   * The defaults as written: the names not given positionally are zipped
   * with `spec.defaults` from the front.
   */
  function DefaultsAsWritten<V>(spec: ArgSpec<V>, args: seq<V>): (r: Dict<Arg<V>>)
    ensures Distinct(Keys(r))
    ensures forall k :: k in Keys(r) ==> k in NotSet(spec, args)
  {
    var r := FromPairs(Wrap(Zip(NotSet(spec, args), spec.defaults)));
    forall k | k in Keys(r)
      ensures k in NotSet(spec, args)
    {
      KeysZipped(NotSet(spec, args), spec.defaults, k);
    }
    r
  }

  /** The position of the first positional parameter that has a default. */
  function DefaultsStart<V>(spec: ArgSpec<V>): (r: nat)
    ensures r <= |spec.args| && |spec.args| - r <= |spec.defaults|
  {
    if |spec.defaults| <= |spec.args| then |spec.args| - |spec.defaults| else 0
  }

  /** The position of the first parameter that has a default and got no positional argument. */
  function ShownFrom<V>(spec: ArgSpec<V>, args: seq<V>): (r: nat)
    ensures DefaultsStart(spec) <= r <= |spec.args|
    ensures |args| <= r || r == |spec.args|
  {
    var first := DefaultsStart(spec);
    if |args| < first then first else if |args| < |spec.args| then |args| else |spec.args|
  }

  /**
   * The defaults as Python binds them: `spec.defaults` belongs to the last
   * positional parameters, and only those not given positionally are shown.
   */
  function DefaultsIntended<V>(spec: ArgSpec<V>, args: seq<V>): Dict<Arg<V>>
  {
    FromPairs(Wrap(Zip(DefaultedNames(spec, args), DefaultedValues(spec, args))))
  }

  /** The names whose default is shown: the defaulted ones not given positionally. */
  function DefaultedNames<V>(spec: ArgSpec<V>, args: seq<V>): (r: seq<string>)
    ensures r == spec.args[ShownFrom(spec, args)..]
  {
    spec.args[ShownFrom(spec, args)..]
  }

  /** Their defaults, in the same order. */
  function DefaultedValues<V>(spec: ArgSpec<V>, args: seq<V>): (r: seq<V>)
    ensures r == spec.defaults[ShownFrom(spec, args) - DefaultsStart(spec)..]
  {
    spec.defaults[ShownFrom(spec, args) - DefaultsStart(spec)..]
  }

  /** The extra positional arguments. */
  function Extra<V>(spec: ArgSpec<V>, args: seq<V>): seq<V>
  {
    if |args| > |spec.args| then args[|spec.args|..] else []
  }

  /** `{spec.varargs: varargs}` when the function has `*args` and some extra argument came. */
  function VarargsDict<V>(spec: ArgSpec<V>, args: seq<V>): (r: Dict<Arg<V>>)
    ensures r != [] <==> spec.varargs.Some? && |args| > |spec.args|
    ensures r != [] ==> r == [(spec.varargs.value, Many(args[|spec.args|..]))]
  {
    if spec.varargs.Some? && Extra(spec, args) != [] then [(spec.varargs.value, Many(Extra(spec, args)))] else []
  }

  /** The parameter names in signature order; `*args` only when it received something. */
  function Order<V>(spec: ArgSpec<V>, args: seq<V>): (r: seq<string>)
    ensures forall k :: k in r <==> k in spec.args || k in spec.kwonlyargs
                                    || (spec.varargs.Some? && |args| > |spec.args| && k == spec.varargs.value)
  {
    spec.args + (if VarargsDict(spec, args) != [] then [spec.varargs.value] else []) + spec.kwonlyargs
  }

  /** The merge of the five sources, later ones overriding earlier ones; every keyword argument is merged. */
  function Merge<V>(spec: ArgSpec<V>, args: seq<V>, kwargs: Dict<V>, defaults: Dict<Arg<V>>): (r: Dict<Arg<V>>)
    ensures forall k :: k in Keys(kwargs) ==> k in Keys(r)
  {
    var before := Union(Early(spec, args, defaults), Wrap(spec.kwonlydefaults));
    assert forall k :: k in Keys(kwargs) ==> k in Keys(Union(before, Wrap(kwargs))) by {
      forall k | k in Keys(kwargs)
        ensures k in Keys(Union(before, Wrap(kwargs)))
      {
        KeysUnion(before, Wrap(kwargs), k);
      }
    }
    Union(before, Wrap(kwargs))
  }

  /** The sources bound by position: positional arguments, defaults, `*args`. */
  function Early<V>(spec: ArgSpec<V>, args: seq<V>, defaults: Dict<Arg<V>>): Dict<Arg<V>>
  {
    Union(Union(Positional(spec, args), defaults), VarargsDict(spec, args))
  }

  /** `order.index(k)`: the first position of `k`. */
  function IndexOf(order: seq<string>, k: string): (r: nat)
    requires k in order
    ensures r < |order| && order[r] == k && k !in order[..r]
  {
    if order[0] == k then 0
    else
      var r := IndexOf(order[1..], k);
      assert order[..r + 1] == [order[0]] + order[1..][..r];
      r + 1
  }

  /** The first key of `keys` that the order does not list. */
  function Outside(keys: seq<string>, order: seq<string>): (r: Option<string>)
    ensures r.None? <==> forall k :: k in keys ==> k in order
    ensures r.Some? ==> r.value in keys && r.value !in order
  {
    if keys == [] then None
    else if keys[0] !in order then Some(keys[0])
    else Outside(keys[1..], order)
  }

  /**
   * From position `i` of the order on: each name at its first position,
   * if the dict has it and it is not `element`, with its represented value.
   */
  function Arrange<V>(d: Dict<Arg<V>>, order: seq<string>, i: nat, represent: Arg<V> -> string): Dict<string>
    requires i <= |order|
    decreases |order| - i
  {
    if i == |order| then []
    else if Shows(d, order, i) then [(order[i], represent(Get(d, order[i]).value))] + Arrange(d, order, i + 1, represent)
    else Arrange(d, order, i + 1, represent)
  }

  /** Position `i` shows its name: the name's first position, merged, and not `element`. */
  predicate Shows<V>(d: Dict<Arg<V>>, order: seq<string>, i: nat)
    requires i < |order|
  {
    order[i] !in order[..i] && Get(d, order[i]).Some? && order[i] != "element"
  }

  /** Sorting the merged items by their position in the order, then dropping `element`. */
  function Sorted<V>(d: Dict<Arg<V>>, order: seq<string>, represent: Arg<V> -> string): (r: Result<Dict<string>, ParamError>)
    ensures r.Err? ==> r.error.key in Keys(d) && r.error.key !in order
  {
    match Outside(Keys(d), order)
    case Some(k) => Err(NotInOrder(k))
    case None => Ok(Arrange(d, order, 0, represent))
  }

  /**
   * `_fn_params_to_ordered_dict(func, *args, **kwargs)` as written: an
   * ordered dict without `element` and without repeated names, or the
   * error for a merged name that is no parameter.
   */
  function Params<V>(spec: ArgSpec<V>, args: seq<V>, kwargs: Dict<V>, represent: Arg<V> -> string): (r: Result<Dict<string>, ParamError>)
    ensures r.Ok? ==> "element" !in Keys(r.value) && Distinct(Keys(r.value))
    ensures r.Err? ==> r.error.key !in Order(spec, args)
  {
    Checked(Merge(spec, args, kwargs, DefaultsAsWritten(spec, args)), Order(spec, args), represent)
  }

  /** The same, with defaults bound to the parameters Python binds them to. */
  function ParamsIntended<V>(spec: ArgSpec<V>, args: seq<V>, kwargs: Dict<V>, represent: Arg<V> -> string): (r: Result<Dict<string>, ParamError>)
    ensures r.Ok? ==> "element" !in Keys(r.value) && Distinct(Keys(r.value))
    ensures r.Err? ==> r.error.key !in Order(spec, args)
  {
    Checked(Merge(spec, args, kwargs, DefaultsIntended(spec, args)), Order(spec, args), represent)
  }

  /** `Sorted`, with what its lemmas establish about a successful result. */
  function Checked<V>(d: Dict<Arg<V>>, order: seq<string>, represent: Arg<V> -> string): (r: Result<Dict<string>, ParamError>)
    ensures r == Sorted(d, order, represent)
    ensures r.Ok? ==> "element" !in Keys(r.value) && Distinct(Keys(r.value))
  {
    if Sorted(d, order, represent).Ok? then
      SortedOrder(d, order, represent);
      SortedKeys(d, order, represent, "element");
      Sorted(d, order, represent)
    else Sorted(d, order, represent)
  }

  lemma IndexOfAtMost(order: seq<string>, k: string, t: nat)
    requires t < |order| && order[t] == k
    ensures IndexOf(order, k) <= t
  {
  }

  lemma IndexOfFirst(order: seq<string>, k: string, t: nat)
    requires t < |order| && order[t] == k && k !in order[..t]
    ensures IndexOf(order, k) == t
  {
    IndexOfAtMost(order, k, t);
  }

  /** The arranged keys are the dict's keys listed at or after position `i`, except `element`. */
  lemma {:induction false} ArrangeKeys<V>(d: Dict<Arg<V>>, order: seq<string>, i: nat, represent: Arg<V> -> string, k: string)
    requires i <= |order|
    ensures k in Keys(Arrange(d, order, i, represent))
            <==> k in order && IndexOf(order, k) >= i && k in Keys(d) && k != "element"
    decreases |order| - i
  {
    if i < |order| {
      ArrangeKeys(d, order, i + 1, represent, k);
      if k == order[i] {
        IndexOfAtMost(order, k, i);
        if k !in order[..i] {
          IndexOfFirst(order, k, i);
        }
      } else if k in order && IndexOf(order, k) >= i {
        assert IndexOf(order, k) != i;
      }
    }
  }

  /** Every key of `r` is listed in the order at position `i` or later. */
  predicate AfterPosition<T>(r: Dict<T>, order: seq<string>, i: nat)
  {
    forall p :: 0 <= p < |r| ==> r[p].0 in order && i <= IndexOf(order, r[p].0)
  }

  /** The keys of `r` stand in strictly increasing order of their position in the order. */
  predicate Increasing<T>(r: Dict<T>, order: seq<string>)
    requires forall p :: 0 <= p < |r| ==> r[p].0 in order
  {
    forall p, q :: 0 <= p < q < |r| ==> IndexOf(order, r[p].0) < IndexOf(order, r[q].0)
  }

  /** The arranged keys come in strictly increasing order of their position. */
  lemma {:induction false} ArrangeSorted<V>(d: Dict<Arg<V>>, order: seq<string>, i: nat, represent: Arg<V> -> string)
    requires i <= |order|
    ensures AfterPosition(Arrange(d, order, i, represent), order, i)
    ensures Increasing(Arrange(d, order, i, represent), order)
    decreases |order| - i
  {
    if i < |order| {
      ArrangeSorted(d, order, i + 1, represent);
      var k := order[i];
      var rest := Arrange(d, order, i + 1, represent);
      var r := Arrange(d, order, i, represent);
      if Shows(d, order, i) {
        IndexOfFirst(order, k, i);
        assert r == [(k, represent(Get(d, k).value))] + rest;
        forall p | 0 <= p < |r|
          ensures r[p].0 in order && i <= IndexOf(order, r[p].0)
        {
          if p > 0 {
            assert r[p] == rest[p - 1];
          }
        }
        forall p, q | 0 <= p < q < |r|
          ensures IndexOf(order, r[p].0) < IndexOf(order, r[q].0)
        {
          assert r[q] == rest[q - 1];
          if p > 0 {
            assert r[p] == rest[p - 1];
          }
        }
      }
    }
  }

  /** Each value of `r` is `represent` of that key's value in `d`. */
  predicate Represents<V>(r: Dict<string>, d: Dict<Arg<V>>, represent: Arg<V> -> string)
  {
    forall p :: 0 <= p < |r| ==> Get(d, r[p].0).Some? && r[p].1 == represent(Get(d, r[p].0).value)
  }

  /** Each arranged value is the represented value of that key in the dict. */
  lemma {:induction false} ArrangeValues<V>(d: Dict<Arg<V>>, order: seq<string>, i: nat, represent: Arg<V> -> string)
    requires i <= |order|
    ensures Represents(Arrange(d, order, i, represent), d, represent)
    decreases |order| - i
  {
    if i < |order| {
      ArrangeValues(d, order, i + 1, represent);
      var r, rest := Arrange(d, order, i, represent), Arrange(d, order, i + 1, represent);
      if Shows(d, order, i) {
        forall p | 1 <= p < |r|
          ensures Get(d, r[p].0).Some? && r[p].1 == represent(Get(d, r[p].0).value)
        {
          assert r[p] == rest[p - 1];
        }
      }
    }
  }

  /** Every merged key other than `element` is shown with its represented value. */
  lemma SortedEntry<V>(d: Dict<Arg<V>>, order: seq<string>, represent: Arg<V> -> string, k: string)
    requires Sorted(d, order, represent).Ok? && k in Keys(d) && k != "element"
    ensures (k, represent(Get(d, k).value)) in Sorted(d, order, represent).value
  {
    var r := Sorted(d, order, represent).value;
    SortedKeys(d, order, represent, k);
    SortedValues(d, order, represent);
    var p :| 0 <= p < |r| && Keys(r)[p] == k;
    assert r[p].0 == k;
  }

  /** Sorting fails exactly when some merged key is not a parameter name of the order. */
  lemma SortedFails<V>(d: Dict<Arg<V>>, order: seq<string>, represent: Arg<V> -> string)
    ensures Sorted(d, order, represent).Ok? <==> forall k :: k in Keys(d) ==> k in order
  {
  }

  /** The result holds every merged key except `element`, and nothing else. */
  lemma SortedKeys<V>(d: Dict<Arg<V>>, order: seq<string>, represent: Arg<V> -> string, k: string)
    requires Sorted(d, order, represent).Ok?
    ensures k in Keys(Sorted(d, order, represent).value) <==> k in Keys(d) && k != "element"
  {
    ArrangeKeys(d, order, 0, represent, k);
  }

  /** The result is ordered by position in the order, so it holds no key twice. */
  lemma SortedOrder<V>(d: Dict<Arg<V>>, order: seq<string>, represent: Arg<V> -> string)
    requires Sorted(d, order, represent).Ok?
    ensures AfterPosition(Sorted(d, order, represent).value, order, 0)
    ensures Increasing(Sorted(d, order, represent).value, order)
    ensures Distinct(Keys(Sorted(d, order, represent).value))
  {
    ArrangeSorted(d, order, 0, represent);
  }

  /** Every shown value is `represent` of the merged value. */
  lemma SortedValues<V>(d: Dict<Arg<V>>, order: seq<string>, represent: Arg<V> -> string)
    requires Sorted(d, order, represent).Ok?
    ensures Represents(Sorted(d, order, represent).value, d, represent)
  {
    ArrangeValues(d, order, 0, represent);
  }

  lemma {:induction false} GetAt<T>(d: Dict<T>, p: nat)
    requires Distinct(Keys(d)) && p < |d|
    ensures Get(d, d[p].0) == Some(d[p].1)
  {
    if p > 0 {
      assert Keys(d[1..]) == Keys(d)[1..];
      assert d[0].0 != d[p].0 by {
        assert Keys(d)[0] != Keys(d)[p];
      }
      GetAt(d[1..], p - 1);
    }
  }

  /** `dict(zip(names, values))` maps the t-th name to the t-th value. */
  lemma GetZipped<V>(names: seq<string>, values: seq<V>, t: nat)
    requires Distinct(names) && t < |names| && t < |values|
    ensures Get(FromPairs(Wrap(Zip(names, values))), names[t]) == Some(One(values[t]))
  {
    var e := Wrap(Zip(names, values));
    assert Distinct(Keys(e)) by {
      assert forall i :: 0 <= i < |e| ==> Keys(e)[i] == names[i];
    }
    GetUnion([], e, names[t]);
    GetAt(e, t);
  }

  lemma KeysZipped<V>(names: seq<string>, values: seq<V>, k: string)
    ensures k in Keys(FromPairs(Wrap(Zip(names, values)))) ==> k in names
  {
    KeysUnion([], Wrap(Zip(names, values)), k);
    var z := Zip(names, values);
    assert forall i :: 0 <= i < |z| ==> Keys(z)[i] == names[i];
  }

  lemma NotLater(xs: seq<string>, j: nat, from: nat)
    requires Distinct(xs) && j < from <= |xs|
    ensures xs[j] !in xs[from..]
  {
    forall i | from <= i < |xs|
      ensures xs[i] != xs[j]
    {
    }
  }

  /**
   * Each source overrides the ones merged before it: keyword arguments,
   * then keyword-only defaults, then `*args`, then defaults, then the
   * positional arguments.
   */
  lemma MergePrecedence<V>(spec: ArgSpec<V>, args: seq<V>, kwargs: Dict<V>, defaults: Dict<Arg<V>>, k: string)
    requires Distinct(Keys(spec.kwonlydefaults)) && Distinct(Keys(kwargs)) && Distinct(Keys(defaults))
    ensures Get(Merge(spec, args, kwargs, defaults), k) ==
              if k in Keys(kwargs) then Lift(Get(kwargs, k))
              else if k in Keys(spec.kwonlydefaults) then Lift(Get(spec.kwonlydefaults, k))
              else if k in Keys(VarargsDict(spec, args)) then Get(VarargsDict(spec, args), k)
              else if k in Keys(defaults) then Get(defaults, k)
              else Get(Positional(spec, args), k)
  {
    GetWrap(kwargs, k);
    GetWrap(spec.kwonlydefaults, k);
    GetUnion(Union(Early(spec, args, defaults), Wrap(spec.kwonlydefaults)), Wrap(kwargs), k);
    GetUnion(Early(spec, args, defaults), Wrap(spec.kwonlydefaults), k);
    GetEarly(spec, args, defaults, k);
  }

  lemma GetEarly<V>(spec: ArgSpec<V>, args: seq<V>, defaults: Dict<Arg<V>>, k: string)
    requires Distinct(Keys(defaults))
    ensures Get(Early(spec, args, defaults), k) ==
              if k in Keys(VarargsDict(spec, args)) then Get(VarargsDict(spec, args), k)
              else if k in Keys(defaults) then Get(defaults, k)
              else Get(Positional(spec, args), k)
  {
    GetUnion(Union(Positional(spec, args), defaults), VarargsDict(spec, args), k);
    GetUnion(Positional(spec, args), defaults, k);
  }

  /** A name no keyword source holds keeps the value the positional sources gave it. */
  lemma GetLate<V>(spec: ArgSpec<V>, args: seq<V>, kwargs: Dict<V>, defaults: Dict<Arg<V>>, k: string)
    requires Distinct(Keys(spec.kwonlydefaults)) && Distinct(Keys(kwargs))
    requires k !in Keys(spec.kwonlydefaults) && k !in Keys(kwargs)
    ensures Get(Merge(spec, args, kwargs, defaults), k) == Get(Early(spec, args, defaults), k)
  {
    GetUnion(Union(Early(spec, args, defaults), Wrap(spec.kwonlydefaults)), Wrap(kwargs), k);
    GetUnion(Early(spec, args, defaults), Wrap(spec.kwonlydefaults), k);
  }

  lemma KeysMerge<V>(spec: ArgSpec<V>, args: seq<V>, kwargs: Dict<V>, defaults: Dict<Arg<V>>, k: string)
    ensures k in Keys(Merge(spec, args, kwargs, defaults)) <==>
              k in Keys(Positional(spec, args)) || k in Keys(defaults) || k in Keys(VarargsDict(spec, args))
              || k in Keys(spec.kwonlydefaults) || k in Keys(kwargs)
  {
    var m1 := Union(Positional(spec, args), defaults);
    var m2 := Early(spec, args, defaults);
    var m3 := Union(m2, Wrap(spec.kwonlydefaults));
    KeysUnion(m3, Wrap(kwargs), k);
    KeysUnion(m2, Wrap(spec.kwonlydefaults), k);
    KeysUnion(m1, VarargsDict(spec, args), k);
    KeysUnion(Positional(spec, args), defaults, k);
  }

  lemma {:induction false} KeysRemove<T>(d: Dict<T>, x: string, k: string)
    ensures k in Keys(Remove(d, x)) ==> k in Keys(d)
  {
    if d != [] {
      KeysRemove(d[1..], x, k);
    }
  }

  /** Every merged name that no keyword source brought is a name of the order. */
  lemma MergedInOrder<V>(spec: ArgSpec<V>, args: seq<V>, defaults: Dict<Arg<V>>, kwargs: Dict<V>, k: string)
    requires forall n :: n in Keys(defaults) ==> n in spec.args
    requires k in Keys(Merge(spec, args, kwargs, defaults)) && k !in Keys(spec.kwonlydefaults) && k !in Keys(kwargs)
    ensures k in Order(spec, args)
  {
    KeysMerge(spec, args, kwargs, defaults, k);
    var named := FromPairs(Wrap(Zip(spec.args, args)));
    KeysRemove(named, if spec.args == [] then "" else spec.args[0], k);
    KeysZipped(spec.args, args, k);
  }

  /** As written, defaults are bound to positional names only. */
  lemma AsWrittenArePositional<V>(spec: ArgSpec<V>, args: seq<V>, n: string)
    ensures n in Keys(DefaultsAsWritten(spec, args)) ==> n in spec.args
  {
    KeysZipped(NotSet(spec, args), spec.defaults, n);
  }

  /** Read as Python binds them, too. */
  lemma IntendedArePositional<V>(spec: ArgSpec<V>, args: seq<V>, n: string)
    ensures n in Keys(DefaultsIntended(spec, args)) ==> n in spec.args
  {
    KeysZipped(DefaultedNames(spec, args), DefaultedValues(spec, args), n);
  }

  /** With defaults bound to positional names, the merge fails to sort only on a stray keyword. */
  lemma MergeSorts<V>(spec: ArgSpec<V>, args: seq<V>, kwargs: Dict<V>, defaults: Dict<Arg<V>>, represent: Arg<V> -> string)
    requires forall n :: n in Keys(spec.kwonlydefaults) ==> n in spec.kwonlyargs
    requires forall n :: n in Keys(defaults) ==> n in spec.args
    ensures Sorted(Merge(spec, args, kwargs, defaults), Order(spec, args), represent).Ok?
            <==> forall k :: k in Keys(kwargs) ==> k in Order(spec, args)
  {
    var m := Merge(spec, args, kwargs, defaults);
    forall k | k in Keys(m) && k !in Keys(kwargs)
      ensures k in Order(spec, args)
    {
      if k !in Keys(spec.kwonlydefaults) {
        MergedInOrder(spec, args, defaults, kwargs, k);
      }
    }
    forall k | k in Keys(kwargs)
      ensures k in Keys(m)
    {
      KeysMerge(spec, args, kwargs, defaults, k);
    }
  }

  /**
   * Ordering succeeds exactly when every keyword argument names a
   * parameter; keyword-only defaults always name keyword-only parameters.
   */
  lemma ParamsFailOnlyOnStrayKeyword<V>(spec: ArgSpec<V>, args: seq<V>, kwargs: Dict<V>, represent: Arg<V> -> string)
    requires forall n :: n in Keys(spec.kwonlydefaults) ==> n in spec.kwonlyargs
    ensures Params(spec, args, kwargs, represent).Ok? <==> forall k :: k in Keys(kwargs) ==> k in Order(spec, args)
    ensures ParamsIntended(spec, args, kwargs, represent).Ok? <==> forall k :: k in Keys(kwargs) ==> k in Order(spec, args)
  {
    forall n | true
      ensures n in Keys(DefaultsAsWritten(spec, args)) ==> n in spec.args
      ensures n in Keys(DefaultsIntended(spec, args)) ==> n in spec.args
    {
      AsWrittenArePositional(spec, args, n);
      IntendedArePositional(spec, args, n);
    }
    MergeSorts(spec, args, kwargs, DefaultsAsWritten(spec, args), represent);
    MergeSorts(spec, args, kwargs, DefaultsIntended(spec, args), represent);
  }

  /** A name none of the five sources holds is not merged. */
  lemma NotMerged<V>(spec: ArgSpec<V>, args: seq<V>, kwargs: Dict<V>, defaults: Dict<Arg<V>>, k: string)
    requires k !in Keys(Positional(spec, args)) && k !in Keys(defaults) && k !in Keys(VarargsDict(spec, args))
    requires k !in Keys(spec.kwonlydefaults) && k !in Keys(kwargs)
    ensures k !in Keys(Merge(spec, args, kwargs, defaults))
  {
    KeysMerge(spec, args, kwargs, defaults, k);
  }

  /** Only parameters not given positionally get a default, in either reading. */
  lemma DefaultsSkipGiven<V>(spec: ArgSpec<V>, args: seq<V>, j: nat)
    requires Distinct(spec.args) && j < |args| && j < |spec.args|
    ensures spec.args[j] !in Keys(DefaultsAsWritten(spec, args))
    ensures spec.args[j] !in Keys(DefaultsIntended(spec, args))
  {
    var k := spec.args[j];
    if |args| <= |spec.args| {
      NotLater(spec.args, j, |args|);
    }
    KeysZipped(NotSet(spec, args), spec.defaults, k);
    NotLater(spec.args, j, ShownFrom(spec, args));
    KeysZipped(DefaultedNames(spec, args), DefaultedValues(spec, args), k);
  }

  /**
   * The `self` or `cls` a method call receives positionally is not shown,
   * unless a keyword source names it again.
   */
  lemma SelfHidden<V>(spec: ArgSpec<V>, args: seq<V>, kwargs: Dict<V>, represent: Arg<V> -> string)
    requires spec.args != [] && spec.args[0] in ["cls", "self"] && |args| >= 1
    requires Distinct(spec.args) && spec.varargs != Some(spec.args[0])
    requires spec.args[0] !in Keys(spec.kwonlydefaults) && spec.args[0] !in Keys(kwargs)
    ensures Params(spec, args, kwargs, represent).Ok? ==> spec.args[0] !in Keys(Params(spec, args, kwargs, represent).value)
    ensures ParamsIntended(spec, args, kwargs, represent).Ok? ==> spec.args[0] !in Keys(ParamsIntended(spec, args, kwargs, represent).value)
  {
    var me := spec.args[0];
    DefaultsSkipGiven(spec, args, 0);
    NotMerged(spec, args, kwargs, DefaultsAsWritten(spec, args), me);
    NotMerged(spec, args, kwargs, DefaultsIntended(spec, args), me);
    if Params(spec, args, kwargs, represent).Ok? {
      SortedKeys(Merge(spec, args, kwargs, DefaultsAsWritten(spec, args)), Order(spec, args), represent, me);
    }
    if ParamsIntended(spec, args, kwargs, represent).Ok? {
      SortedKeys(Merge(spec, args, kwargs, DefaultsIntended(spec, args)), Order(spec, args), represent, me);
    }
  }

  /** Extra positional arguments are merged, and ordered, under the `*args` name only when some came. */
  lemma VarargsOnlyWhenExtra<V>(spec: ArgSpec<V>, args: seq<V>)
    ensures VarargsDict(spec, args) != [] <==> spec.varargs.Some? && |args| > |spec.args|
    ensures Order(spec, args) == if VarargsDict(spec, args) == [] then spec.args + spec.kwonlyargs
                                 else spec.args + [spec.varargs.value] + spec.kwonlyargs
  {
  }

  /** When extra positional arguments came, they are shown as one tuple under the `*args` name. */
  lemma VarargsShown<V>(spec: ArgSpec<V>, args: seq<V>, kwargs: Dict<V>, represent: Arg<V> -> string)
    requires spec.varargs.Some? && |args| > |spec.args| && spec.varargs.value != "element"
    requires spec.varargs.value !in Keys(spec.kwonlydefaults) && spec.varargs.value !in Keys(kwargs)
    requires Distinct(Keys(spec.kwonlydefaults)) && Distinct(Keys(kwargs))
    ensures var r := Params(spec, args, kwargs, represent);
            r.Ok? ==> (spec.varargs.value, represent(Many(args[|spec.args|..]))) in r.value
    ensures var r := ParamsIntended(spec, args, kwargs, represent);
            r.Ok? ==> (spec.varargs.value, represent(Many(args[|spec.args|..]))) in r.value
  {
    var n := spec.varargs.value;
    assert DefaultsAsWritten(spec, args) == [];
    var defaults := DefaultsIntended(spec, args);
    GetLate(spec, args, kwargs, [], n);
    GetUnion(Union(Positional(spec, args), []), VarargsDict(spec, args), n);
    if Params(spec, args, kwargs, represent).Ok? {
      SortedEntry(Merge(spec, args, kwargs, []), Order(spec, args), represent, n);
    }
    GetLate(spec, args, kwargs, defaults, n);
    GetUnion(Union(Positional(spec, args), defaults), VarargsDict(spec, args), n);
    if ParamsIntended(spec, args, kwargs, represent).Ok? {
      SortedEntry(Merge(spec, args, kwargs, defaults), Order(spec, args), represent, n);
    }
  }

  // ---------------------------------------------------------------------
  // The defaults finding
  // ---------------------------------------------------------------------

  /**
   * As written, `def f(a, b=d1, c=d2)` called as `f(x, y)` binds `c` to
   * `d1`: the one unset name is zipped with the first default, not its own.
   * Read as Python binds defaults, `c` gets `d2`.
   */
  lemma DefaultsShifted<V>(a: string, b: string, c: string, x: V, y: V, d1: V, d2: V)
    requires a != b && b != c && a != c
    ensures Get(DefaultsAsWritten(ArgSpec([a, b, c], None, [d1, d2], [], []), [x, y]), c) == Some(One(d1))
    ensures Get(DefaultsIntended(ArgSpec([a, b, c], None, [d1, d2], [], []), [x, y]), c) == Some(One(d2))
  {
    var spec := ArgSpec([a, b, c], None, [d1, d2], [], []);
    DefaultsAsWrittenBind(spec, [x, y], 2);
    DefaultsIntendedBind(spec, [x, y], 2);
  }

  /** As written, the j-th positional name not given positionally takes the default counted from the first unset name. */
  lemma DefaultsAsWrittenBind<V>(spec: ArgSpec<V>, args: seq<V>, j: nat)
    requires Distinct(spec.args) && |args| <= j < |spec.args| && j - |args| < |spec.defaults|
    ensures Get(DefaultsAsWritten(spec, args), spec.args[j]) == Some(One(spec.defaults[j - |args|]))
  {
    var names := NotSet(spec, args);
    assert names == spec.args[|args|..];
    DistinctSuffix(spec.args, |args|);
    GetZipped(names, spec.defaults, j - |args|);
    assert names[j - |args|] == spec.args[j];
    assert DefaultsAsWritten(spec, args) == FromPairs(Wrap(Zip(names, spec.defaults)));
  }

  /**
   * Whatever default a reading binds to a name that no later source
   * overrides is what the step shows for that name.
   */
  lemma DefaultReachesStep<V>(spec: ArgSpec<V>, args: seq<V>, kwargs: Dict<V>, defaults: Dict<Arg<V>>,
                              represent: Arg<V> -> string, k: string)
    requires Distinct(Keys(defaults)) && Get(defaults, k).Some? && k != "element"
    requires spec.varargs != Some(k) && k !in Keys(spec.kwonlydefaults) && k !in Keys(kwargs)
    requires Distinct(Keys(spec.kwonlydefaults)) && Distinct(Keys(kwargs))
    ensures var r := Sorted(Merge(spec, args, kwargs, defaults), Order(spec, args), represent);
            r.Ok? ==> (k, represent(Get(defaults, k).value)) in r.value
  {
    GetLate(spec, args, kwargs, defaults, k);
    GetEarly(spec, args, defaults, k);
    if Sorted(Merge(spec, args, kwargs, defaults), Order(spec, args), represent).Ok? {
      SortedEntry(Merge(spec, args, kwargs, defaults), Order(spec, args), represent, k);
    }
  }

  lemma DistinctSuffix(xs: seq<string>, from: nat)
    requires Distinct(xs) && from <= |xs|
    ensures Distinct(xs[from..])
  {
    var ys := xs[from..];
    forall p, q | 0 <= p < q < |ys|
      ensures ys[p] != ys[q]
    {
      assert ys[p] == xs[from + p] && ys[q] == xs[from + q];
    }
  }

  /** Each parameter with a default and no positional argument gets its own default. */
  lemma DefaultsIntendedBind<V>(spec: ArgSpec<V>, args: seq<V>, j: nat)
    requires Distinct(spec.args) && |spec.defaults| <= |spec.args|
    requires |args| <= j < |spec.args| && |spec.args| - |spec.defaults| <= j
    ensures Get(DefaultsIntended(spec, args), spec.args[j]) == Some(One(spec.defaults[j - (|spec.args| - |spec.defaults|)]))
  {
    var from := ShownFrom(spec, args);
    var names, values := DefaultedNames(spec, args), DefaultedValues(spec, args);
    DistinctSuffix(spec.args, from);
    GetZipped(names, values, j - from);
    assert names[j - from] == spec.args[j];
    assert values[j - from] == spec.defaults[j - (|spec.args| - |spec.defaults|)];
  }

  /** Read as Python binds defaults, such a parameter is shown with its own default, unless a keyword names it. */
  lemma DefaultShown<V>(spec: ArgSpec<V>, args: seq<V>, kwargs: Dict<V>, represent: Arg<V> -> string, j: nat)
    requires Distinct(spec.args) && |spec.defaults| <= |spec.args|
    requires |args| <= j < |spec.args| && |spec.args| - |spec.defaults| <= j
    requires spec.args[j] != "element" && spec.varargs != Some(spec.args[j])
    requires spec.args[j] !in Keys(spec.kwonlydefaults) && spec.args[j] !in Keys(kwargs)
    requires Distinct(Keys(spec.kwonlydefaults)) && Distinct(Keys(kwargs))
    ensures var r := ParamsIntended(spec, args, kwargs, represent);
            r.Ok? ==> (spec.args[j], represent(One(spec.defaults[j - (|spec.args| - |spec.defaults|)]))) in r.value
  {
    DefaultsIntendedBind(spec, args, j);
    DefaultReachesStep(spec, args, kwargs, DefaultsIntended(spec, args), represent, spec.args[j]);
  }

  /** As written, the same parameter is shown with the default counted from the first unset name. */
  lemma DefaultShownAsWritten<V>(spec: ArgSpec<V>, args: seq<V>, kwargs: Dict<V>, represent: Arg<V> -> string, j: nat)
    requires Distinct(spec.args) && |args| <= j < |spec.args| && j - |args| < |spec.defaults|
    requires spec.args[j] != "element" && spec.varargs != Some(spec.args[j])
    requires spec.args[j] !in Keys(spec.kwonlydefaults) && spec.args[j] !in Keys(kwargs)
    requires Distinct(Keys(spec.kwonlydefaults)) && Distinct(Keys(kwargs))
    ensures var r := Params(spec, args, kwargs, represent);
            r.Ok? ==> (spec.args[j], represent(One(spec.defaults[j - |args|]))) in r.value
  {
    DefaultsAsWrittenBind(spec, args, j);
    DefaultReachesStep(spec, args, kwargs, DefaultsAsWritten(spec, args), represent, spec.args[j]);
  }

  /**
   * The two readings agree when exactly the parameters without a default
   * were given positionally.
   */
  lemma DefaultsAgree<V>(spec: ArgSpec<V>, args: seq<V>)
    requires |spec.defaults| <= |spec.args| && |args| == |spec.args| - |spec.defaults|
    ensures DefaultsAsWritten(spec, args) == DefaultsIntended(spec, args)
  {
    assert ShownFrom(spec, args) == |args|;
    assert spec.defaults[0..] == spec.defaults;
  }

  // ---------------------------------------------------------------------
  // The reported step name (CustomStepContext.__call__)
  // ---------------------------------------------------------------------

  /**
   * How a step is declared: its title (`None` when absent), the separator
   * between shown parameters, whether their quotes are dropped, and the
   * textual replacements applied to the final name.
   */
  datatype StepOptions = StepOptions(title: Option<string>, separator: string, derepresent: bool,
                                     translations: seq<(string, string)>)

  /** `step(title)`: a comma-separated, untranslated step that keeps the title given. */
  function Step(title: Option<string>): (r: StepOptions)
    ensures r.title == title && r.separator == ", " && !r.derepresent
    ensures forall text :: Translate(text, r.translations) == text
  {
    StepOptions(title, ", ", false, [])
  }

  /** `f'{title}'`: an absent title formats as `None`. */
  function TitleText(title: Option<string>): string
  {
    match title
    case None => "None"
    case Some(t) => t
  }

  /**
   * The declared title, followed by the `name` keyword argument in double
   * quotes when that argument is truthy.
   */
  function StepTitle<V>(options: StepOptions, kwargs: Dict<V>, str: V -> string, truthy: V -> bool): (r: Option<string>)
    ensures (Get(kwargs, "name").Some? && truthy(Get(kwargs, "name").value))
            ==> r == Some(TitleText(options.title) + " \"" + str(Get(kwargs, "name").value) + "\"")
    ensures !(Get(kwargs, "name").Some? && truthy(Get(kwargs, "name").value)) ==> r == options.title
  {
    match Get(kwargs, "name")
    case Some(name) =>
      if truthy(name) then Some(TitleText(options.title) + " \"" + str(name) + "\"") else options.title
    case None => options.title
  }

  /** `s[1:-1]`: without its first and last character, empty when that leaves nothing. */
  function Derepresent(s: string): (r: string)
    ensures |r| == if |s| <= 2 then 0 else |s| - 2
  {
    if |s| <= 2 then "" else s[1..|s| - 1]
  }

  /** Dropping the quotes `represent` puts around a string gives the string back. */
  lemma DerepresentQuoted(x: string)
    ensures Derepresent("'" + x + "'") == x
  {
    var q := "'" + x + "'";
    if |q| > 2 {
      assert q[1..|q| - 1] == x;
    }
  }

  /** The parameter values as shown, with their quotes dropped when the step asks for it. */
  function ShownValues(options: StepOptions, params: Dict<string>): (r: seq<string>)
    ensures |r| == |params|
    ensures forall i {:trigger r[i]} :: 0 <= i < |r| ==>
              r[i] == if options.derepresent then Derepresent(params[i].1) else params[i].1
  {
    if params == [] then []
    else [if options.derepresent then Derepresent(params[0].1) else params[0].1] + ShownValues(options, params[1..])
  }

  /** The title shown: the step's own when it is not empty, else the function's name in words. */
  function Heading(funcName: string, title: Option<string>): (r: string)
    ensures title.Some? && title.value != "" ==> r == title.value
    ensures title.None? || title.value == "" ==> '_' !in r && (r == [] || (!IsSpace(r[0]) && !IsSpace(r[|r| - 1])))
  {
    if title.Some? && title.value != "" then title.value else Humanify(funcName)
  }

  /** The shown values joined by the step's separator. */
  function ParamsText(options: StepOptions, params: Dict<string>): string
  {
    Join(options.separator, ShownValues(options, params))
  }

  /** The heading followed by `: ` and the parameters, when their text is not empty. */
  function Compose(options: StepOptions, funcName: string, title: Option<string>, params: Dict<string>): (r: string)
    ensures Heading(funcName, title) <= r
  {
    var text := ParamsText(options, params);
    Heading(funcName, title) + (if text != "" then ": " + text else "")
  }

  /**
   * The translations applied in turn, each replacing every occurrence; when
   * every translation replaces a string by one of the same length, the
   * length of the text is kept.
   */
  function Translate(text: string, translations: seq<(string, string)>): (r: string)
    ensures (forall i :: 0 <= i < |translations| ==> |translations[i].0| == |translations[i].1|) ==> |r| == |text|
    decreases |translations|
  {
    if translations == [] then text
    else
      ReplaceLength(text, translations[0].0, translations[0].1);
      Translate(ReplaceAll(text, translations[0].0, translations[0].1), translations[1..])
  }

  /** The keyword that collides with the first parameter of `_fn_params_to_ordered_dict`. */
  const FUNC: string := "func"

  /**
   * The name under which a call of the decorated function is reported, or
   * the error raised before the function runs. Passing the call's keywords
   * on to `_fn_params_to_ordered_dict(func, ...)` raises when one of them is
   * `func`; otherwise the name fails exactly when the parameters cannot be
   * ordered, with their error. An untranslated name starts with the heading.
   */
  function StepName<V>(options: StepOptions, funcName: string, spec: ArgSpec<V>, args: seq<V>, kwargs: Dict<V>,
                       represent: Arg<V> -> string, str: V -> string, truthy: V -> bool): (r: Result<string, ParamError>)
    ensures FUNC in Keys(kwargs) ==> r == Err(MultipleValues(FUNC))
    ensures r.Err? <==> FUNC in Keys(kwargs) || Params(spec, args, kwargs, represent).Err?
    ensures FUNC !in Keys(kwargs) && r.Err? ==> r.error == Params(spec, args, kwargs, represent).error
    ensures r.Ok? && options.translations == [] ==> Heading(funcName, StepTitle(options, kwargs, str, truthy)) <= r.value
  {
    if FUNC in Keys(kwargs) then Err(MultipleValues(FUNC))
    else Named(options, funcName, StepTitle(options, kwargs, str, truthy), Params(spec, args, kwargs, represent))
  }

  /** The same name with the parameters bound as Python binds them (see DefaultsShifted). */
  function StepNameIntended<V>(options: StepOptions, funcName: string, spec: ArgSpec<V>, args: seq<V>, kwargs: Dict<V>,
                               represent: Arg<V> -> string, str: V -> string, truthy: V -> bool): (r: Result<string, ParamError>)
    ensures FUNC in Keys(kwargs) ==> r == Err(MultipleValues(FUNC))
    ensures r.Err? <==> FUNC in Keys(kwargs) || ParamsIntended(spec, args, kwargs, represent).Err?
    ensures FUNC !in Keys(kwargs) && r.Err? ==> r.error == ParamsIntended(spec, args, kwargs, represent).error
    ensures r.Ok? && options.translations == [] ==> Heading(funcName, StepTitle(options, kwargs, str, truthy)) <= r.value
  {
    if FUNC in Keys(kwargs) then Err(MultipleValues(FUNC))
    else Named(options, funcName, StepTitle(options, kwargs, str, truthy), ParamsIntended(spec, args, kwargs, represent))
  }

  /** The translated name for ordered parameters, or their error. */
  function Named(options: StepOptions, funcName: string, title: Option<string>, params: Result<Dict<string>, ParamError>): Result<string, ParamError>
  {
    match params
    case Err(e) => Err(e)
    case Ok(p) => Ok(Translate(Compose(options, funcName, title, p), options.translations))
  }

  /**
   * The heading stands alone exactly when every shown value is empty and no
   * non-empty separator stands between two of them.
   */
  lemma ComposeShowsParams(options: StepOptions, funcName: string, title: Option<string>, params: Dict<string>)
    ensures var values := ShownValues(options, params);
            Compose(options, funcName, title, params) == Heading(funcName, title)
            <==> (forall i :: 0 <= i < |values| ==> values[i] == "") && (|values| <= 1 || options.separator == "")
  {
    JoinEmpty(options.separator, ShownValues(options, params));
    var text := ParamsText(options, params);
    if text != "" {
      assert |Compose(options, funcName, title, params)| > |Heading(funcName, title)|;
    }
  }

  /** Translations that replace a string by itself leave the name unchanged. */
  lemma {:induction false} TranslateIdentity(text: string, translations: seq<(string, string)>)
    requires forall i :: 0 <= i < |translations| ==> translations[i].0 == translations[i].1
    ensures Translate(text, translations) == text
    decreases |translations|
  {
    if translations != [] {
      ReplaceSame(text, translations[0].0);
      TranslateIdentity(text, translations[1..]);
    }
  }

  /** Translations are applied left to right: the first one sees the name, the rest see its result. */
  lemma {:induction false} TranslateAppend(text: string, first: seq<(string, string)>, rest: seq<(string, string)>)
    ensures Translate(text, first + rest) == Translate(Translate(text, first), rest)
    decreases |first|
  {
    if first != [] {
      assert (first + rest)[1..] == first[1..] + rest;
      TranslateAppend(ReplaceAll(text, first[0].0, first[0].1), first[1..], rest);
    } else {
      assert first + rest == rest;
    }
  }
}
