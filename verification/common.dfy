/** Shared vocabulary of the provisioning model: the Python exceptions the
    modelled code raises or catches, a value-or-exception outcome, the
    credential records passed between components, and the few `str`
    operations the code relies on (`sep.join`, `str.split`, `in`, `str(int)`). */
module Common {

  /** The exception kinds the modelled code raises, catches or lets through. */
  datatype Exception =
    | ClientError(message: string)     // botocore ClientError; `message` is str(e)
    | KeyError(key: string)            // a missing dict key
    | IndexError                       // `[0]` on an empty list
    | ValueError(message: string)
    | ValidationError(message: string) // Django form validation
    | TypeError(message: string)
    | TimeoutError(message: string)
    | AttributeError(name: string)     // a missing attribute or method
    | DoesNotExist                     // an ORM lookup that found no row
    | OtherError(message: string)      // anything else a collaborator raises

  /** What a Python call does: return a value or raise. */
  datatype Outcome<+T> = Returned(value: T) | Raised(error: Exception) {
    predicate IsFailure() { Raised? }

    function PropagateFailure<U>(): Outcome<U>
      requires Raised?
    {
      Raised(error)
    }

    function Extract(): T
      requires Returned?
    {
      value
    }
  }

  datatype Option<+T> = None | Some(value: T)

  /** A user dict `{'username': ..., 'password': ...}`; either key may be absent. */
  datatype UserRecord = UserRecord(username: Option<string>, password: Option<string>)

  /** The per-instance admin dict `{'username': 'pawsey', 'password': ...}`. */
  datatype AdminCredentials = AdminCredentials(username: string, password: string)

  /** An EC2 instance as the resource API reports it. */
  datatype Instance = Instance(id: string, publicDns: string)

  /** The `(instance, users, admin_credentials)` tuples the fleet code returns. */
  datatype Provisioned = Provisioned(instance: Instance, users: seq<UserRecord>, admin: AdminCredentials)

  /** `sep.join(parts)`. */
  function Join(parts: seq<string>, sep: string): string
  {
    if |parts| == 0 then ""
    else if |parts| == 1 then parts[0]
    else parts[0] + sep + Join(parts[1..], sep)
  }

  /** `s.split(c)` for a one-character separator: never empty, `"".split(c) == [""]`. */
  function Split(s: string, c: char): (r: seq<string>)
    ensures |r| >= 1
    decreases |s|
  {
    if |s| == 0 then [""]
    else if s[0] == c then [""] + Split(s[1..], c)
    else
      var t := Split(s[1..], c);
      [[s[0]] + t[0]] + t[1..]
  }

  /** `sub` occurs in `s` starting at index `i`. */
  predicate OccursAt(s: string, sub: string, i: int)
  {
    0 <= i <= |s| - |sub| && s[i..i + |sub|] == sub
  }

  /** Python's `sub in s`. */
  predicate Contains(s: string, sub: string)
  {
    exists i | 0 <= i <= |s| - |sub| :: OccursAt(s, sub, i)
  }

  predicate StartsWith(s: string, prefix: string)
  {
    |prefix| <= |s| && s[..|prefix|] == prefix
  }

  function DigitChar(d: nat): (c: char)
    requires d < 10
    ensures '0' <= c <= '9'
  {
    "0123456789"[d]
  }

  /** `str(n)` for a non-negative integer. */
  function NatToString(n: nat): (r: string)
    ensures |r| >= 1
    ensures forall i :: 0 <= i < |r| ==> '0' <= r[i] <= '9'
    ensures n >= 10 ==> |r| >= 2
  {
    if n < 10 then [DigitChar(n)] else NatToString(n / 10) + [DigitChar(n % 10)]
  }

  lemma DigitCharInjective(a: nat, b: nat)
    requires a < 10 && b < 10 && DigitChar(a) == DigitChar(b)
    ensures a == b
  {
  }

  /** Distinct numbers print differently. */
  lemma {:induction false} NatToStringInjective(a: nat, b: nat)
    requires NatToString(a) == NatToString(b)
    ensures a == b
  {
    if a < 10 && b < 10 {
      DigitCharInjective(a, b);
    } else if a >= 10 && b >= 10 {
      var sa, sb := NatToString(a), NatToString(b);
      assert sa[|sa| - 1] == DigitChar(a % 10) && sb[|sb| - 1] == DigitChar(b % 10);
      DigitCharInjective(a % 10, b % 10);
      assert NatToString(a / 10) == sa[..|sa| - 1];
      assert NatToString(b / 10) == sb[..|sb| - 1];
      NatToStringInjective(a / 10, b / 10);
    }
  }

  /** A string's occurrence inside a concatenation around it. */
  lemma ContainsMiddle(a: string, b: string, c: string)
    ensures Contains(a + b + c, b)
  {
    assert OccursAt(a + b + c, b, |a|);
  }

  /** Containment survives extension on either side. */
  lemma ContainsExtend(s: string, sub: string, a: string, c: string)
    requires Contains(s, sub)
    ensures Contains(a + s + c, sub)
  {
    var i :| 0 <= i <= |s| - |sub| && OccursAt(s, sub, i);
    assert (a + s + c)[|a| + i..|a| + i + |sub|] == s[i..i + |sub|];
    assert OccursAt(a + s + c, sub, |a| + i);
  }

  lemma JoinCons(x: string, rest: seq<string>, sep: string)
    requires |rest| >= 1
    ensures Join([x] + rest, sep) == x + sep + Join(rest, sep)
  {
    assert ([x] + rest)[1..] == rest;
  }

  /** Each part of a join occurs in it. */
  lemma {:induction false} JoinContainsPart(parts: seq<string>, sep: string, i: nat)
    requires i < |parts|
    ensures Contains(Join(parts, sep), parts[i])
  {
    if |parts| == 1 {
      ContainsMiddle("", parts[0], "");
      assert "" + parts[0] + "" == parts[0];
    } else if i == 0 {
      ContainsMiddle("", parts[0], sep + Join(parts[1..], sep));
      assert "" + parts[0] + (sep + Join(parts[1..], sep)) == Join(parts, sep);
    } else {
      JoinContainsPart(parts[1..], sep, i - 1);
      ContainsExtend(Join(parts[1..], sep), parts[i], parts[0] + sep, "");
      assert parts[0] + sep + Join(parts[1..], sep) + "" == Join(parts, sep);
    }
  }

  /** Splitting a piece free of the separator gives the piece back. */
  lemma {:induction false} SplitNoSeparator(p: string, rest: string, c: char)
    requires c !in p
    ensures Split(p + [c] + rest, c) == [p] + Split(rest, c)
    ensures Split(p, c) == [p]
    decreases |p|
  {
    if |p| == 0 {
      assert p + [c] + rest == [c] + rest;
      assert ([c] + rest)[1..] == rest;
    } else {
      SplitNoSeparator(p[1..], rest, c);
      assert (p + [c] + rest)[1..] == p[1..] + [c] + rest;
      assert [p[0]] + p[1..] == p;
    }
  }

  /** `sep.join` and `split` are inverse when no part holds the separator. */
  lemma {:induction false} SplitJoin(parts: seq<string>, c: char)
    requires |parts| >= 1
    requires forall i :: 0 <= i < |parts| ==> c !in parts[i]
    ensures Split(Join(parts, [c]), c) == parts
  {
    if |parts| == 1 {
      SplitNoSeparator(parts[0], "", c);
    } else {
      SplitJoin(parts[1..], c);
      SplitNoSeparator(parts[0], Join(parts[1..], [c]), c);
      assert [parts[0]] + parts[1..] == parts;
    }
  }

  /** `''.join(parts)`. */
  function Concat(parts: seq<string>): string
  {
    if |parts| == 0 then "" else parts[0] + Concat(parts[1..])
  }

  lemma {:induction false} ConcatAppend(a: seq<string>, b: seq<string>)
    ensures Concat(a + b) == Concat(a) + Concat(b)
  {
    if |a| == 0 {
      assert a + b == b;
    } else {
      assert (a + b)[1..] == a[1..] + b;
      ConcatAppend(a[1..], b);
    }
  }

  /** Whatever occurs in a run of consecutive parts occurs in the whole. */
  lemma ConcatContainsRange(parts: seq<string>, i: nat, j: nat, w: string)
    requires i <= j <= |parts|
    requires Contains(Concat(parts[i..j]), w)
    ensures Contains(Concat(parts), w)
  {
    assert parts == parts[..i] + parts[i..j] + parts[j..];
    ConcatAppend(parts[..i] + parts[i..j], parts[j..]);
    ConcatAppend(parts[..i], parts[i..j]);
    ContainsExtend(Concat(parts[i..j]), w, Concat(parts[..i]), Concat(parts[j..]));
  }

  /** The whole starts with its first part. */
  lemma ConcatStartsWith(parts: seq<string>)
    requires |parts| >= 1
    ensures StartsWith(Concat(parts), parts[0])
  {
    assert Concat(parts)[..|parts[0]|] == parts[0];
  }

  /** Containment is transitive. */
  lemma ContainsTransitive(s: string, t: string, w: string)
    requires Contains(s, t) && Contains(t, w)
    ensures Contains(s, w)
  {
    var i :| 0 <= i <= |s| - |t| && OccursAt(s, t, i);
    var j :| 0 <= j <= |t| - |w| && OccursAt(t, w, j);
    forall k | 0 <= k < |w|
      ensures s[i + j + k] == w[k]
    {
      assert t[j + k] == s[i..i + |t|][j + k];
    }
    assert s[i + j..i + j + |w|] == w;
    assert OccursAt(s, w, i + j);
  }

  /** The whole contains each of its parts. */
  lemma {:induction false} ConcatContainsPart(parts: seq<string>, i: nat)
    requires i < |parts|
    ensures Contains(Concat(parts), parts[i])
  {
    if i == 0 {
      ContainsMiddle("", parts[0], Concat(parts[1..]));
      assert "" + parts[0] + Concat(parts[1..]) == Concat(parts);
    } else {
      ConcatContainsPart(parts[1..], i - 1);
      ContainsExtend(Concat(parts[1..]), parts[i], parts[0], "");
      assert parts[0] + Concat(parts[1..]) + "" == Concat(parts);
    }
  }

  /** The whole contains any three consecutive parts, adjacent. */
  lemma {:induction false} ConcatContainsThree(parts: seq<string>, i: nat)
    requires i + 3 <= |parts|
    ensures Contains(Concat(parts), parts[i] + parts[i + 1] + parts[i + 2])
  {
    var w := parts[i] + parts[i + 1] + parts[i + 2];
    if i == 0 {
      assert parts[1..][1..][1..] == parts[3..];
      assert Concat(parts[1..][1..]) == parts[2] + Concat(parts[3..]);
      assert Concat(parts[1..]) == parts[1] + Concat(parts[1..][1..]);
      assert Concat(parts) == w + Concat(parts[3..]);
      ContainsMiddle("", w, Concat(parts[3..]));
      assert "" + w + Concat(parts[3..]) == Concat(parts);
    } else {
      ConcatContainsThree(parts[1..], i - 1);
      ContainsExtend(Concat(parts[1..]), w, parts[0], "");
      assert parts[0] + Concat(parts[1..]) + "" == Concat(parts);
    }
  }
}
