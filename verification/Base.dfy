/** Vocabulary shared by every module of the model. */
module Base {

  /** UUIDs are compared with PostgreSQL's total order on 128-bit values, which is numeric. */
  type Uuid = nat

  /** Timestamps are points on one integer time line; durations are differences of them. */
  type Time = int

  datatype Option<+T> = None | Some(value: T)

  datatype Result<+T, +E> = Success(value: T) | Failure(error: E) {
    predicate IsFailure() {
      Failure?
    }

    function PropagateFailure<U>(): Result<U, E>
      requires Failure?
    {
      Failure(error)
    }

    function Extract(): T
      requires Success?
    {
      value
    }
  }

  function Min(a: int, b: int): int {
    if a <= b then a else b
  }

  function Concat<T>(parts: seq<seq<T>>): seq<T> {
    if parts == [] then [] else Concat(parts[..|parts| - 1]) + parts[|parts| - 1]
  }

  lemma ConcatOneMore<T>(parts: seq<seq<T>>, i: nat)
    requires i < |parts|
    ensures Concat(parts[..i + 1]) == Concat(parts[..i]) + parts[i]
  {
    assert parts[..i + 1][..i] == parts[..i];
  }

  /** What `str.strip()` removes, within the modelled alphabet. */
  predicate IsSpace(c: char) {
    c == ' ' || c == '\t' || c == '\n' || c == '\r'
  }

  /** Python's `not value.strip()`. */
  predicate Blank(s: string) {
    forall c :: c in s ==> IsSpace(c)
  }

  /** SQL's `length(btrim(value)) = 0`: only spaces are trimmed. */
  predicate BtrimEmpty(s: string) {
    forall c :: c in s ==> c == ' '
  }

  function LStrip(s: string): (r: string)
    ensures |r| <= |s|
  {
    if s != [] && IsSpace(s[0]) then LStrip(s[1..]) else s
  }

  function RStrip(s: string): (r: string)
    ensures |r| <= |s|
  {
    if s != [] && IsSpace(s[|s| - 1]) then RStrip(s[..|s| - 1]) else s
  }

  /** Python's `value.strip()`. */
  function Strip(s: string): string {
    RStrip(LStrip(s))
  }

  lemma {:induction false} RStripKeepsFirst(s: string)
    requires s != [] && !IsSpace(s[0])
    ensures RStrip(s) != [] && RStrip(s)[0] == s[0]
  {
    if IsSpace(s[|s| - 1]) {
      RStripKeepsFirst(s[..|s| - 1]);
    }
  }

  lemma {:induction false} LStripFirst(s: string)
    ensures LStrip(s) == [] || !IsSpace(LStrip(s)[0])
  {
    if s != [] && IsSpace(s[0]) {
      LStripFirst(s[1..]);
    }
  }

  lemma {:induction false} RStripLast(s: string)
    ensures RStrip(s) == [] || !IsSpace(RStrip(s)[|RStrip(s)| - 1])
  {
    if s != [] && IsSpace(s[|s| - 1]) {
      RStripLast(s[..|s| - 1]);
    }
  }

  /** Stripping again changes nothing. */
  lemma StripIdempotent(s: string)
    ensures Strip(Strip(s)) == Strip(s)
  {
    LStripFirst(s);
    if LStrip(s) != [] {
      RStripKeepsFirst(LStrip(s));
    }
    RStripLast(LStrip(s));
  }

  lemma {:induction false} LStripOfNonBlank(s: string)
    requires !Blank(s)
    ensures LStrip(s) != []
  {
    if IsSpace(s[0]) {
      assert s == [s[0]] + s[1..];
      LStripOfNonBlank(s[1..]);
    }
  }

  /** What is left of a text that is not blank is not blank, and not longer. */
  lemma StripNonBlank(s: string)
    requires !Blank(s)
    ensures !Blank(Strip(s)) && |Strip(s)| <= |s|
  {
    LStripOfNonBlank(s);
    LStripFirst(s);
    RStripKeepsFirst(LStrip(s));
    assert Strip(s)[0] in Strip(s);
  }

  /** Nothing is left of a text exactly when it is blank. */
  lemma StripBlank(s: string)
    ensures Strip(s) == "" <==> Blank(s)
  {
    if Blank(s) {
      LStripOfBlank(s);
    } else {
      StripNonBlank(s);
    }
  }

  lemma {:induction false} LStripOfBlank(s: string)
    requires Blank(s)
    ensures LStrip(s) == ""
  {
    if s != "" {
      assert s[0] in s;
      assert Blank(s[1..]) by {
        assert forall c :: c in s[1..] ==> c in s;
      }
      LStripOfBlank(s[1..]);
    }
  }

  lemma {:induction false} LStripIsSuffix(s: string)
    ensures var n := |s| - |LStrip(s)|;
            && LStrip(s) == s[n..] && (forall i :: 0 <= i < n ==> IsSpace(s[i]))
            && (n < |s| ==> !IsSpace(s[n]))
  {
    if s != "" && IsSpace(s[0]) {
      LStripIsSuffix(s[1..]);
    }
  }

  lemma {:induction false} RStripIsPrefix(s: string)
    ensures var n := |RStrip(s)|;
            && RStrip(s) == s[..n] && (forall i :: n <= i < |s| ==> IsSpace(s[i]))
            && (n > 0 ==> !IsSpace(s[n - 1]))
  {
    if s != "" && IsSpace(s[|s| - 1]) {
      RStripIsPrefix(s[..|s| - 1]);
    }
  }

  /** What is stripped is exactly the white space at both ends. */
  lemma StripMeaning(s: string) returns (before: string, after: string)
    ensures s == before + Strip(s) + after
    ensures forall i :: 0 <= i < |before| ==> before[i] in " \t\n\r"
    ensures forall i :: 0 <= i < |after| ==> after[i] in " \t\n\r"
    ensures Strip(s) != "" ==> Strip(s)[0] !in " \t\n\r" && Strip(s)[|Strip(s)| - 1] !in " \t\n\r"
  {
    var left := LStrip(s);
    LStripIsSuffix(s);
    RStripIsPrefix(left);
    before, after := s[..|s| - |left|], left[|Strip(s)|..];
    if Strip(s) != "" {
      assert Strip(s)[0] == left[0];
    }
  }
}
