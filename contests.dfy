/**
 * The crate root (src/main.rs): the five contest kinds, the problem labels
 * each kind has, the classification of a contest from its series and number,
 * and the fixed error messages.
 */
module Contests {
  import opened Wrappers
  import opened Text

  /**
   * The structural eras of the contests: ABC from number 212 on (eight
   * problems), H_ABC for 126 to 211 (six), S_ABC up to 125 (four), and the
   * ARC and AGC series (six each).
   */
  datatype Contest = ABC | H_ABC | S_ABC | ARC | AGC

  /** What a parsed command line asks to create. */
  datatype ContestInfo = ContestInfo(name: string, kind: Contest, url: Option<string>)

  /** The series token of a kind: the three ABC eras share "abc". */
  function Value(c: Contest): (r: string)
    ensures r == "abc" <==> (c.ABC? || c.H_ABC? || c.S_ABC?)
    ensures r == "arc" <==> c.ARC?
    ensures r == "agc" <==> c.AGC?
  {
    match c
    case ABC => "abc"
    case H_ABC => "abc"
    case S_ABC => "abc"
    case ARC => "arc"
    case AGC => "agc"
  }

  /**
   * `(lo..=hi).map(|x| x.to_string()).collect()`: one single-character string
   * per character from `lo` up to `hi` inclusive, in order.
   */
  function CharRange(lo: char, hi: char): (r: seq<string>)
    requires hi <= '\U{D7FF}'
    ensures |r| == if lo <= hi then hi as int - lo as int + 1 else 0
    ensures forall i :: 0 <= i < |r| ==> r[i] == [(lo as int + i) as char]
    decreases hi as int - lo as int
  {
    if lo > hi then []
    else if lo == hi then [[lo]]
    else [[lo]] + CharRange((lo as int + 1) as char, hi)
  }

  /**
   * The problem labels of a contest kind: "a".."h" for ABC, "a".."d" for
   * S_ABC, "a".."f" for the others.
   */
  function ProblemNames(c: Contest): (r: seq<string>)
    ensures |r| == match c case ABC => 8 case S_ABC => 4 case _ => 6
    ensures forall i :: 0 <= i < |r| ==> r[i] == [('a' as int + i) as char]
  {
    var aToD := CharRange('a', 'd');
    var aToF := CharRange('a', 'f');
    var aToH := CharRange('a', 'h');
    match c
    case ABC => aToH
    case H_ABC => aToF
    case S_ABC => aToD
    case ARC => aToF
    case AGC => aToF
  }

  /**
   * Every label list is a prefix of "a", "b", "c", ...: single lower-case
   * letters, strictly increasing, hence without duplicates.
   */
  lemma LabelsAreAlphabetPrefix(c: Contest)
    ensures forall i :: 0 <= i < |ProblemNames(c)| ==>
      |ProblemNames(c)[i]| == 1 && 'a' <= ProblemNames(c)[i][0] <= 'h'
    ensures forall i, j :: 0 <= i < j < |ProblemNames(c)| ==>
      ProblemNames(c)[i][0] < ProblemNames(c)[j][0] && ProblemNames(c)[i] != ProblemNames(c)[j]
  {
  }

  /** The series tokens `Contests::from` accepts; anything else trips its `assert!`. */
  predicate IsSeries(kind: string)
  {
    kind == "abc" || kind == "arc" || kind == "agc"
  }

  /**
   * `Contests::from((kind, num))`. The source panics unless `kind` is a
   * series token and `num` parses as a `u32`; those are its preconditions.
   */
  function From(kind: string, num: string): (c: Contest)
    requires IsSeries(kind)
    requires ParseU32(num).Some?
    ensures c == ARC <==> kind == "arc"
    ensures c == AGC <==> kind == "agc"
    ensures kind == "abc" ==> (c == S_ABC <==> ParseU32(num).value <= 125)
    ensures kind == "abc" ==> (c == H_ABC <==> 126 <= ParseU32(num).value <= 211)
    ensures kind == "abc" ==> (c == ABC <==> 212 <= ParseU32(num).value)
    ensures Value(c) == kind
  {
    var n := ParseU32(num).value;
    if kind == "abc" then
      if n <= 125 then S_ABC else if n <= 211 then H_ABC else ABC
    else if kind == "arc" then ARC
    else AGC
  }

  /** In the ABC series the number of problems never decreases as the contest number grows. */
  lemma AbcProblemCountMonotone(earlier: string, later: string)
    requires ParseU32(earlier).Some? && ParseU32(later).Some?
    requires ParseU32(earlier).value <= ParseU32(later).value
    ensures |ProblemNames(From("abc", earlier))| <= |ProblemNames(From("abc", later))|
  {
  }

  /** The error kinds of the crate, each with a fixed message. */
  datatype ErrorMessage =
    | FailedCreateDir
    | FailedCreateFile
    | FailedRemoveDir
    | FailedRemoveFile
    | FailedWrite
    | FailedGet

  /** `ErrorMessages::value`. */
  function Message(e: ErrorMessage): (r: string)
    ensures StartsWith(r, "Failed to ")
  {
    match e
    case FailedCreateDir => "Failed to Create Dir"
    case FailedCreateFile => "Failed to Create File"
    case FailedRemoveDir => "Failed to Remove Dir"
    case FailedRemoveFile => "Failed to Remove File"
    case FailedWrite => "Failed to Write"
    case FailedGet => "Failed to Get File"
  }

  /** The six messages are pairwise distinct, so a message names its error. */
  lemma MessagesDistinct(a: ErrorMessage, b: ErrorMessage)
    requires Message(a) == Message(b)
    ensures a == b
  {
  }
}
