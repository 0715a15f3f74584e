/** Values shared by every part of the model: optional values, the
    exceptions the Python layer raises, and the handful of Python values a
    user-supplied filter function may return. */
module Common {

  datatype Option<+T> = None | Some(value: T)

  /** The exceptions that can escape from the library, with their messages. */
  datatype Error =
    | SoundFontException(message: string)
    | RuntimeError(message: string)
    | KeyError(key: string)
    | ValueError(message: string)
    | ZeroDivisionError

  /** The outcome of an operation that may raise. */
  datatype Result<+T> = Ok(value: T) | Err(error: Error) {
    predicate IsFailure() { Err? }
    function PropagateFailure<U>(): Result<U>
      requires Err?
    {
      Err(error)
    }
    function Extract(): T
      requires Ok?
    {
      value
    }
  }

  /** What a filter function may return: `None`, a bool, an int, a float,
      or anything else (only its truthiness matters then). */
  datatype PyValue =
    | NoneValue
    | BoolValue(b: bool)
    | IntValue(i: int)
    | FloatValue(r: real)
    | OtherValue(truthy: bool)

  /** Python truthiness, as `if v:` tests it. */
  predicate Truthy(v: PyValue) {
    match v
    case NoneValue => false
    case BoolValue(b) => b
    case IntValue(i) => i != 0
    case FloatValue(r) => r != 0.0
    case OtherValue(t) => t
  }

  /** Python `v == True` on the values modelled here: true for `True`, `1`
      and `1.0` only. */
  predicate EqualsTrue(v: PyValue) {
    v == BoolValue(true) || v == IntValue(1) || v == FloatValue(1.0)
  }

  /** An item after a filter has possibly modified it, with the filter's verdict. */
  datatype Filtered<T> = Filtered(item: T, verdict: PyValue)

  /** The items whose verdict does not ask for deletion, in their original order. */
  function Survivors<T>(s: seq<Filtered<T>>, deletes: PyValue -> bool): (r: seq<T>)
    ensures |r| <= |s|
    ensures forall x :: x in r ==> exists i :: 0 <= i < |s| && s[i].item == x && !deletes(s[i].verdict)
  {
    if s == [] then []
    else
      var rest := Survivors(s[1..], deletes);
      assert forall x :: x in rest ==> exists i :: 1 <= i < |s| && s[i].item == x && !deletes(s[i].verdict) by {
        forall x | x in rest ensures exists i :: 1 <= i < |s| && s[i].item == x && !deletes(s[i].verdict) {
          var j :| 0 <= j < |s[1..]| && s[1..][j].item == x && !deletes(s[1..][j].verdict);
          assert s[j + 1] == s[1..][j];
        }
      }
      if deletes(s[0].verdict) then rest else [s[0].item] + rest
  }

  /** Filtering distributes over concatenation, so the survivors keep the
      relative order of the input. */
  lemma {:induction false} SurvivorsAppend<T>(a: seq<Filtered<T>>, b: seq<Filtered<T>>, deletes: PyValue -> bool)
    ensures Survivors(a + b, deletes) == Survivors(a, deletes) + Survivors(b, deletes)
  {
    if a == [] {
      assert a + b == b;
    } else {
      assert (a + b)[1..] == a[1..] + b;
      SurvivorsAppend(a[1..], b, deletes);
    }
  }

  /** Every item whose verdict keeps it is among the survivors. */
  lemma {:induction false} SurvivorsKeep<T>(s: seq<Filtered<T>>, deletes: PyValue -> bool, i: nat)
    requires i < |s| && !deletes(s[i].verdict)
    ensures s[i].item in Survivors(s, deletes)
  {
    if i > 0 {
      assert s[1..][i - 1] == s[i];
      SurvivorsKeep(s[1..], deletes, i - 1);
    }
  }

  /** A filter whose verdicts never delete keeps every item, in order. */
  lemma {:induction false} SurvivorsAll<T>(s: seq<Filtered<T>>, deletes: PyValue -> bool)
    requires forall i :: 0 <= i < |s| ==> !deletes(s[i].verdict)
    ensures |Survivors(s, deletes)| == |s|
    ensures forall i :: 0 <= i < |s| ==> Survivors(s, deletes)[i] == s[i].item
  {
    if s != [] {
      SurvivorsAll(s[1..], deletes);
      var rest := Survivors(s[1..], deletes);
      forall i | 1 <= i < |s| ensures ([s[0].item] + rest)[i] == s[i].item {
        assert s[1..][i - 1] == s[i];
      }
    }
  }
}
