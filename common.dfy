/** Small shared vocabulary: optional values, results carrying the Python
    exception a call would raise, decimal file names and path joining. */
module Common {

  datatype Option<T> = None | Some(value: T)

  /** The exceptions the modelled code raises (or lets escape). */
  datatype Error =
    | IndexError                      // list index / pop from an empty list
    | KeyError(key: string)           // a dictionary lookup of a missing key
    | FileNotFound(path: string)      // a read of a file that was never written
    | WrongContent(path: string)      // a file or buffer item of the wrong kind
    | MissingConnector                // an input/output attribute that was never set
    | UnrecognizedStatistic(stat: string)

  datatype Result<T> = Success(value: T) | Failure(error: Error)

  /** The decimal digit for 0 <= d < 10. */
  function Digit(d: nat): char
    requires d < 10
  {
    "0123456789"[d]
  }

  /** Python's str() of a non-negative int: decimal digits, most significant first. */
  function Decimal(n: nat): (s: string)
    ensures |s| >= 1
    ensures n < 10 <==> |s| == 1
    ensures forall i :: 0 <= i < |s| ==> '0' <= s[i] <= '9'
    decreases n
  {
    if n < 10 then [Digit(n)] else Decimal(n / 10) + [Digit(n % 10)]
  }

  lemma DigitInjective(a: nat, b: nat)
    requires a < 10 && b < 10
    ensures Digit(a) == Digit(b) ==> a == b
  {
  }

  /** Distinct numbers have distinct decimal names. */
  lemma {:induction false} DecimalInjective(a: nat, b: nat)
    ensures Decimal(a) == Decimal(b) <==> a == b
    decreases a
  {
    if Decimal(a) == Decimal(b) {
      if a < 10 || b < 10 {
        assert a < 10 && b < 10;
        assert Decimal(a)[0] == Digit(a) && Decimal(b)[0] == Digit(b);
        DigitInjective(a, b);
      } else {
        var sa, sb := Decimal(a), Decimal(b);
        assert sa[|sa| - 1] == Digit(a % 10) && sb[|sb| - 1] == Digit(b % 10);
        DigitInjective(a % 10, b % 10);
        assert sa[..|sa| - 1] == Decimal(a / 10);
        assert sb[..|sb| - 1] == Decimal(b / 10);
        DecimalInjective(a / 10, b / 10);
      }
    }
  }

  /** os.path.join(dir, name) for two components. */
  function Join(dir: string, name: string): (p: string)
    ensures |name| > 0 && name[0] == '/' ==> p == name
    ensures (|name| == 0 || name[0] != '/') && (dir == [] || dir[|dir| - 1] == '/') ==> p == dir + name
    ensures (|name| == 0 || name[0] != '/') && dir != [] && dir[|dir| - 1] != '/' ==> p == dir + "/" + name
  {
    if |name| > 0 && name[0] == '/' then name
    else if dir == [] || dir[|dir| - 1] == '/' then dir + name
    else dir + "/" + name
  }

  /** The name of the k-th file a stage writes or reads: str(k) + extension. */
  function TaskFile(k: nat, extension: string): string
  {
    Decimal(k) + extension
  }

  /** Under one directory, the k-th and the j-th task files coincide exactly when k == j. */
  lemma {:induction false} TaskPathInjective(dir: string, k: nat, j: nat, extension: string)
    ensures Join(dir, TaskFile(k, extension)) == Join(dir, TaskFile(j, extension)) <==> k == j
  {
    var a, b := TaskFile(k, extension), TaskFile(j, extension);
    if Join(dir, a) == Join(dir, b) {
      assert a[0] == Decimal(k)[0] && b[0] == Decimal(j)[0];
      var pre := if dir == [] || dir[|dir| - 1] == '/' then dir else dir + "/";
      assert Join(dir, a) == pre + a && Join(dir, b) == pre + b;
      assert a == (pre + a)[|pre|..] && b == (pre + b)[|pre|..];
      assert |Decimal(k)| == |Decimal(j)|;
      assert Decimal(k) == a[..|Decimal(k)|] && Decimal(j) == b[..|Decimal(j)|];
      DecimalInjective(k, j);
    }
  }
}
