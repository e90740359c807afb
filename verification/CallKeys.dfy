/** The key under which a call of a cached function is stored: one flat tuple, with a sentinel as separator. */
module CallKeys {

  /** An argument: == compares only the value, as 1 == 1.0, and type() gives the kind. */
  datatype Object = Object(value: int, kind: int)

  datatype Keyword = Keyword(name: int, argument: Object)

  /** An element of the tuple as == sees it: names, values and types are objects alike. */
  datatype Part = Mark | Item(value: int)

  function Values(args: seq<Object>): seq<Part> {
    seq(|args|, i requires 0 <= i < |args| => Item(args[i].value))
  }

  function Kinds(args: seq<Object>): seq<Part> {
    seq(|args|, i requires 0 <= i < |args| => Item(args[i].kind))
  }

  function Arguments(kwargs: seq<Keyword>): seq<Object> {
    seq(|kwargs|, i requires 0 <= i < |kwargs| => kwargs[i].argument)
  }

  /** The items of the keyword arguments, end to end. */
  function Flat(kwargs: seq<Keyword>): seq<Part> {
    if kwargs == [] then []
    else [Item(kwargs[0].name), Item(kwargs[0].argument.value)] + Flat(kwargs[1..])
  }

  function CallKey(typed: bool, args: seq<Object>, kwargs: seq<Keyword>): seq<Part> {
    var key := Values(args) + (if kwargs == [] then [] else [Mark] + Flat(kwargs));
    if !typed then key
    else key + Kinds(args) + (if kwargs == [] then [] else [Mark] + Kinds(Arguments(kwargs)))
  }

  /** Two calls may share an entry: equal arguments, the same keywords in the same order, and equal types if typed. */
  ghost predicate Alike(typed: bool, args: seq<Object>, kwargs: seq<Keyword>, args': seq<Object>,
                        kwargs': seq<Keyword>) {
    && Values(args) == Values(args')
    && |kwargs| == |kwargs'|
    && (forall i :: 0 <= i < |kwargs| ==>
          kwargs[i].name == kwargs'[i].name && kwargs[i].argument.value == kwargs'[i].argument.value)
    && (typed ==> Kinds(args) == Kinds(args') && Kinds(Arguments(kwargs)) == Kinds(Arguments(kwargs')))
  }

  lemma {:induction false} FlatPlain(kwargs: seq<Keyword>)
    ensures Mark !in Flat(kwargs)
    ensures |Flat(kwargs)| == 2 * |kwargs|
  {
    if kwargs != [] { FlatPlain(kwargs[1..]); }
  }

  lemma {:induction false} FlatAlike(kwargs: seq<Keyword>, kwargs': seq<Keyword>)
    requires |kwargs| == |kwargs'|
    ensures Flat(kwargs) == Flat(kwargs') <==>
            (forall i :: 0 <= i < |kwargs| ==>
               kwargs[i].name == kwargs'[i].name && kwargs[i].argument.value == kwargs'[i].argument.value)
  {
    if kwargs != [] {
      FlatAlike(kwargs[1..], kwargs'[1..]);
      var f, f' := Flat(kwargs), Flat(kwargs');
      assert f[0] == Item(kwargs[0].name) && f[1] == Item(kwargs[0].argument.value) && f[2..] == Flat(kwargs[1..]);
      assert f'[0] == Item(kwargs'[0].name) && f'[1] == Item(kwargs'[0].argument.value)
             && f'[2..] == Flat(kwargs'[1..]);
      assert f == [f[0], f[1]] + f[2..] && f' == [f'[0], f'[1]] + f'[2..];
    }
  }

  /** The first separator is found at the same place in equal tuples. */
  lemma FirstMark(a: seq<Part>, b: seq<Part>, a': seq<Part>, b': seq<Part>)
    requires Mark !in a && Mark !in a'
    requires a + [Mark] + b == a' + [Mark] + b'
    ensures a == a' && b == b'
  {
    var s, s' := a + [Mark] + b, a' + [Mark] + b';
    assert s[|a|] == Mark && s'[|a'|] == Mark;
    assert forall i :: 0 <= i < |a| ==> s[i] == a[i] != Mark;
    assert forall i :: 0 <= i < |a'| ==> s'[i] == a'[i] != Mark;
    assert |a| == |a'|;
    assert a == s[..|a|] && a' == s'[..|a|];
    assert b == s[|a| + 1..] && b' == s'[|a| + 1..];
  }

  /** A call without keyword arguments has no separator in its key. */
  lemma KeywordsMarked(typed: bool, args: seq<Object>, kwargs: seq<Keyword>)
    ensures Mark in CallKey(typed, args, kwargs) <==> kwargs != []
  {
  }

  lemma Halves(a: seq<Part>, b: seq<Part>, a': seq<Part>, b': seq<Part>)
    requires |a| == |a'|
    ensures a + b == a' + b' <==> a == a' && b == b'
  {
    if a + b == a' + b' {
      assert a == (a + b)[..|a|] && b == (a + b)[|a|..];
      assert a' == (a' + b')[..|a|] && b' == (a' + b')[|a|..];
    }
  }

  lemma PositionalKeys(typed: bool, args: seq<Object>, args': seq<Object>)
    ensures CallKey(typed, args, []) == CallKey(typed, args', []) <==> Alike(typed, args, [], args', [])
  {
    if typed {
      assert CallKey(typed, args, []) == Values(args) + Kinds(args);
      assert CallKey(typed, args', []) == Values(args') + Kinds(args');
      if |args| == |args'| {
        Halves(Values(args), Kinds(args), Values(args'), Kinds(args'));
      }
    } else {
      assert CallKey(typed, args, []) == Values(args) && CallKey(typed, args', []) == Values(args');
    }
  }

  function Rest(typed: bool, args: seq<Object>, kwargs: seq<Keyword>): seq<Part> {
    if typed then Flat(kwargs) + Kinds(args) + [Mark] + Kinds(Arguments(kwargs)) else Flat(kwargs)
  }

  lemma KeyWithKeywords(typed: bool, args: seq<Object>, kwargs: seq<Keyword>)
    requires kwargs != []
    ensures CallKey(typed, args, kwargs) == Values(args) + [Mark] + Rest(typed, args, kwargs)
  {
    var v, f, k, a := Values(args), Flat(kwargs), Kinds(args), Kinds(Arguments(kwargs));
    assert v + ([Mark] + f) == v + [Mark] + f;
    assert (v + ([Mark] + f)) + k + ([Mark] + a) == v + [Mark] + (f + k + [Mark] + a);
  }

  /** The typed part behind the separator: keywords, types of the arguments, separator, types of the keywords. */
  lemma RestTyped(f: seq<Part>, k: seq<Part>, a: seq<Part>, f': seq<Part>, k': seq<Part>, a': seq<Part>)
    requires Mark !in f && Mark !in f' && Mark !in k && Mark !in k' && |k| == |k'|
    ensures f + k + [Mark] + a == f' + k' + [Mark] + a' <==> f == f' && k == k' && a == a'
  {
    if f + k + [Mark] + a == f' + k' + [Mark] + a' {
      FirstMark(f + k, a, f' + k', a');
      Halves(f, k, f', k');
    }
  }

  lemma KeywordKeys(typed: bool, args: seq<Object>, kwargs: seq<Keyword>, args': seq<Object>, kwargs': seq<Keyword>)
    requires kwargs != [] && kwargs' != []
    ensures CallKey(typed, args, kwargs) == CallKey(typed, args', kwargs') <==>
              Alike(typed, args, kwargs, args', kwargs')
  {
    var f, f' := Flat(kwargs), Flat(kwargs');
    KeyWithKeywords(typed, args, kwargs);
    KeyWithKeywords(typed, args', kwargs');
    FlatPlain(kwargs);
    FlatPlain(kwargs');
    if |kwargs| == |kwargs'| { FlatAlike(kwargs, kwargs'); }
    if CallKey(typed, args, kwargs) == CallKey(typed, args', kwargs') {
      FirstMark(Values(args), Rest(typed, args, kwargs), Values(args'), Rest(typed, args', kwargs'));
    }
    if Values(args) == Values(args') {
      assert |args| == |Values(args)| == |args'|;
      RestTyped(f, Kinds(args), Kinds(Arguments(kwargs)), f', Kinds(args'), Kinds(Arguments(kwargs')));
    }
  }

  /** Two calls get equal keys exactly when they may share an entry, so no call is answered from another one's entry. */
  lemma KeysExact(typed: bool, args: seq<Object>, kwargs: seq<Keyword>, args': seq<Object>, kwargs': seq<Keyword>)
    ensures CallKey(typed, args, kwargs) == CallKey(typed, args', kwargs') <==>
              Alike(typed, args, kwargs, args', kwargs')
  {
    KeywordsMarked(typed, args, kwargs);
    KeywordsMarked(typed, args', kwargs');
    if kwargs == [] && kwargs' == [] {
      PositionalKeys(typed, args, args');
    } else if kwargs != [] && kwargs' != [] {
      KeywordKeys(typed, args, kwargs, args', kwargs');
    }
  }
}
