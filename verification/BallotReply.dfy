/**
 * The status line every answer starts with (ballotbox/src/libballotclient/codec.c:46-87, 460-470):
 * which results have a name on the wire, and for which ballots an answer therefore cannot be written.
 */
module BallotReply {
  import opened Basics
  import opened BallotStore
  import opened BallotFaults

  /** name_from_result: the table has no entry for an aborted transaction. */
  function ResultName(code: Code): Option<string> {
    match code
    case Ok => Some("BB_OK")
    case ConfigTitle => Some("BB_ERR_CONFIG_TITLE")
    case ConfigOptions => Some("BB_ERR_CONFIG_OPTIONS")
    case ConfigTime => Some("BB_ERR_CONFIG_TIME")
    case ConfigIdTaken => Some("BB_ERR_CONFIG_ID_TAKEN")
    case IllegalTransition => Some("BB_ERR_ILLEGAL_TRANSITION")
    case NotOpen => Some("BB_ERR_NOT_OPEN")
    case ElectionClosed => Some("BB_ERR_CLOSED")
    case NotPublished => Some("BB_ERR_NOT_PUBLISHED")
    case NotEligible => Some("BB_ERR_NOT_ELIGIBLE")
    case CertInvalid => Some("BB_ERR_CERT_INVALID")
    case CertExpired => Some("BB_ERR_CERT_EXPIRED")
    case BadOption => Some("BB_ERR_BAD_OPTION")
    case Replay => Some("BB_ERR_REPLAY")
    case Decrypt => Some("BB_ERR_DECRYPT")
    case NotFound => Some("BB_ERR_NOT_FOUND")
    case NotJoined => Some("BB_ERR_NOT_JOINED")
    case DbError => Some("BB_ERR_DB")
    case NotImplemented => Some("BB_ERR_NOT_IMPLEMENTED")
    case Retry => None
  }

  /** The results in the order the name table is searched. */
  function Results(): seq<Code> {
    [Ok, ConfigTitle, ConfigOptions, ConfigTime, ConfigIdTaken, IllegalTransition, NotOpen,
     ElectionClosed, NotPublished, NotEligible, CertInvalid, CertExpired, BadOption, Replay, Decrypt,
     NotFound, NotJoined, DbError, NotImplemented]
  }

  function ResultAmong(codes: seq<Code>, name: string): Option<Code> {
    if codes == [] then None
    else if ResultName(codes[0]) == Some(name) then Some(codes[0])
    else ResultAmong(codes[1..], name)
  }

  /** result_from_name */
  function ResultNamed(name: string): Option<Code> {
    ResultAmong(Results(), name)
  }

  lemma NamesDiffer(a: Code, b: Code)
    requires ResultName(a).Some? && ResultName(a) == ResultName(b)
    ensures a == b
  {
  }

  lemma {:induction false} ResultFound(codes: seq<Code>, code: Code)
    requires code in codes && ResultName(code).Some?
    ensures ResultAmong(codes, ResultName(code).value) == Some(code)
  {
    hide ResultName;
    if ResultName(codes[0]) == ResultName(code) {
      NamesDiffer(codes[0], code);
    } else {
      ResultFound(codes[1..], code);
    }
  }

  /** Every status but that of an aborted transaction is read back as itself. */
  lemma StatusComesBack(code: Code)
    ensures ResultName(code).Some? <==> code != Retry
    ensures code != Retry ==> ResultNamed(ResultName(code).value) == Some(code)
  {
    if code != Retry {
      hide ResultName, ResultAmong;
      assert code in Results();
      ResultFound(Results(), code);
    }
  }

  /** Recording a ballot ends in a result that no answer can carry exactly when the schedule aborts
      all three attempts, or the begin of one. */
  lemma NoAnswerIffAborted(o: Schedule, t: nat, d: Decision)
    requires d.Refuse? ==> d.code != Retry
    ensures ResultName(Attempts(o, t, d, TXN_ATTEMPTS).0).None? <==> exists starts :: Aborts(o, t, d, TXN_ATTEMPTS, starts)
  {
    hide Attempts, Aborts, ResultName;
    RetryIffAborted(o, t, d, TXN_ATTEMPTS);
    StatusComesBack(Attempts(o, t, d, TXN_ATTEMPTS).0);
  }
}
