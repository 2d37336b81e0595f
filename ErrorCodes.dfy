/** `Sphynx::ErrorCode`: an enum class over uint32_t whose values are bit
    flags, combined with `|` and checked with `&` and HasError. */
module ErrorCodes {

  /** An ErrorCode is its uint32_t representation; any combination of the
      flags is a value of the type. */
  type ErrorCode = bv32

  const OK: ErrorCode := 0
  const NotInitialized: ErrorCode := 1 << 0
  const InvalidOperation: ErrorCode := 1 << 1
  const Unsupported: ErrorCode := 1 << 2
  const NotImplemented: ErrorCode := 1 << 3
  const NoMemory: ErrorCode := 1 << 4
  const OutOfRange: ErrorCode := 1 << 5
  const InvalidArgument: ErrorCode := 1 << 6
  const NotAvailable: ErrorCode := 1 << 7
  const NoPermission: ErrorCode := 1 << 8
  const FatalError: ErrorCode := 1 << 9
  const NonFatalError: ErrorCode := 1 << 10
  const RuntimeError: ErrorCode := 1 << 11
  const OperationFailed: ErrorCode := 1 << 12
  const CoreError: ErrorCode := 1 << 13
  const InternalError: ErrorCode := 1 << 14
  const Unknown: ErrorCode := 1 << 15
  const Failed: ErrorCode := 1 << 16

  /** Every enumerator other than OK, in declaration order. */
  const NamedErrors: seq<ErrorCode> := [
    NotInitialized, InvalidOperation, Unsupported, NotImplemented, NoMemory,
    OutOfRange, InvalidArgument, NotAvailable, NoPermission, FatalError,
    NonFatalError, RuntimeError, OperationFailed, CoreError, InternalError,
    Unknown, Failed]

  /** `operator|`: bitwise or of the underlying values. */
  function Or(lhs: ErrorCode, rhs: ErrorCode): ErrorCode
  {
    lhs | rhs
  }

  /** `operator&`: bitwise and of the underlying values. */
  function And(lhs: ErrorCode, rhs: ErrorCode): ErrorCode
  {
    lhs & rhs
  }

  /** `operator|=`: the value `lhs` is set to, which is also what the
      returned reference reads. */
  function OrAssign(lhs: ErrorCode, rhs: ErrorCode): (updated: ErrorCode)
    ensures updated == Or(lhs, rhs)
  {
    lhs | rhs
  }

  /** `operator&=`: the value `lhs` is set to and returned. */
  function AndAssign(lhs: ErrorCode, rhs: ErrorCode): (updated: ErrorCode)
    ensures updated == And(lhs, rhs)
  {
    lhs & rhs
  }

  /** `operator!`: no error at all. */
  function Not(e: ErrorCode): (r: bool)
    ensures r <==> e == OK
  {
    e == OK
  }

  /** `HasError(combined, specific)`: every flag of `specific` is set in
      `combined`. */
  function HasError(combined: ErrorCode, specific: ErrorCode): bool
  {
    (combined & specific) == specific
  }

  /** `|` is commutative and associative, with OK as its identity. */
  lemma OrIsCommutativeMonoid(a: ErrorCode, b: ErrorCode, c: ErrorCode)
    ensures Or(a, b) == Or(b, a)
    ensures Or(Or(a, b), c) == Or(a, Or(b, c))
    ensures Or(a, OK) == a && Or(OK, a) == a
    ensures Or(a, a) == a
  {
  }

  /** HasError(c, s) holds exactly when or-ing `s` into `c` adds no flag. */
  lemma HasErrorMeansSubset(c: ErrorCode, s: ErrorCode)
    ensures HasError(c, s) <==> Or(c, s) == c
  {
    if HasError(c, s) {
      PresentAddsNothing(c, s);
    } else {
      AbsentAddsFlag(c, s);
    }
  }

  lemma PresentAddsNothing(c: ErrorCode, s: ErrorCode)
    requires c & s == s
    ensures c | s == c
  {
  }

  lemma AbsentAddsFlag(c: ErrorCode, s: ErrorCode)
    requires c & s != s
    ensures c | s != c
  {
  }

  /** OK is found in every combination. */
  lemma OKIsInEveryCode(c: ErrorCode)
    ensures HasError(c, OK)
  {
  }

  /** A combination holds both of its parts. */
  lemma CombinationHasParts(a: ErrorCode, b: ErrorCode)
    ensures HasError(Or(a, b), a) && HasError(Or(a, b), b)
  {
  }

  /** Two parts present means their combination is present. */
  lemma PartsGiveCombination(a: ErrorCode, b: ErrorCode, c: ErrorCode)
    requires HasError(c, a) && HasError(c, b)
    ensures HasError(c, Or(a, b))
  {
  }

  /** HasError is transitive. */
  lemma HasErrorTransitive(a: ErrorCode, b: ErrorCode, c: ErrorCode)
    requires HasError(a, b) && HasError(b, c)
    ensures HasError(a, c)
  {
  }

  /** Enumerator i (counting from NotInitialized) is bit i. */
  lemma NamedErrorsAreBits()
    ensures forall i :: 0 <= i < |NamedErrors| ==> NamedErrors[i] == 1 << i
  {
  }

  /** Two different bits have no flag in common, and no bit is OK. */
  lemma DistinctBits(i: nat, j: nat)
    requires i < 32 && j < 32 && i != j
    ensures (1 as bv32 << i) & (1 as bv32 << j) == 0
    ensures (1 as bv32 << i) != OK
  {
  }

  /** Every named code other than OK is a single bit, and they are pairwise
      distinct, so each can be checked on its own in a combination. */
  lemma NamedErrorsAreDistinctBits(i: nat, j: nat)
    requires i < |NamedErrors| && j < |NamedErrors| && i != j
    ensures NamedErrors[i] != OK && NamedErrors[i] & NamedErrors[j] == 0
  {
    NamedErrorsAreBits();
    DistinctBits(i, j);
  }

  /** A single named flag is reported by HasError exactly when it was or-ed
      into the combination: adding other named flags never fakes it. */
  lemma OtherFlagsDoNotFake(i: nat, j: nat, c: ErrorCode)
    requires i < |NamedErrors| && j < |NamedErrors| && i != j
    requires !HasError(c, NamedErrors[i])
    ensures !HasError(Or(c, NamedErrors[j]), NamedErrors[i])
  {
    NamedErrorsAreDistinctBits(i, j);
  }
}
