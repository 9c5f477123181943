/** Vocabulary shared by every model: NetBird ids, the errors an API call can
    answer with, and the ways a single call can go wrong. */
module Api {
  /** A NetBird object id. Zero stands for the empty string the status fields start with. */
  type Id = nat

  const NO_ID: Id := 0

  /** The key under which Kubernetes stores an object; unique among the objects of one kind. */
  type Uid = nat

  datatype Option<+T> = None | Some(value: T)

  /** NotReady is the operator's own errDependencyNotReady marker, never an API answer. */
  datatype Err = NotFound | Conflict | Other | NotReady

  /** An error an API call can answer with. */
  type ApiErr = e: Err | e != NotReady witness Other

  datatype Reply<+T> = Ok(value: T) | Fail(err: Err)

  /** What happens to one API call. A Lost call reports an error and has had no
      effect; a Late one has had its effect but still reports an error (a
      time-out after the server acted). A crash between two calls is a Lost
      second call. */
  datatype Fault = Fine | Lost(err: ApiErr) | Late(err: ApiErr)
  {
    /** The call takes effect. */
    predicate Acts() { !Lost? }

    function Error(): Option<Err> {
      if Fine? then None else Some(err)
    }

    /** The call does not answer "not found" while leaving the object there. */
    predicate Honest() { !Lost? || err != NotFound }
  }

  /** The answer of a read that is fault-free exactly when f is Fine. */
  function Answer<T>(f: Fault, value: Reply<T>): Reply<T> {
    if f.Fine? then value else Fail(f.err)
  }

  ghost predicate NoRepeats<T>(s: seq<T>) {
    forall i, j :: 0 <= i < j < |s| ==> s[i] != s[j]
  }

  /** The first n calls of a series are answered. */
  predicate FirstFine(f: nat -> Fault, n: nat) {
    n == 0 || (FirstFine(f, n - 1) && f(n - 1).Fine?)
  }

  lemma {:induction false} FirstFineMeans(f: nat -> Fault, n: nat)
    ensures FirstFine(f, n) <==> forall i: nat :: i < n ==> f(i).Fine?
  {
    if n > 0 {
      FirstFineMeans(f, n - 1);
    }
  }

  lemma {:induction false} OneFails(f: nat -> Fault, i: nat, n: nat)
    requires i < n && !f(i).Fine?
    ensures !FirstFine(f, n)
  {
    if i < n - 1 {
      OneFails(f, i, n - 1);
    }
  }
}
