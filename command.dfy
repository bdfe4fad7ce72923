/** `common/command.py`: the commands the application runs, and the check
    that a command-line string names one of them. */
module Commands {
  import opened Results

  /** The members of the `Command` enum. */
  datatype Command = Download | Predict

  /** The value of each member: `DOWNLOAD = "download"`, `PREDICT = "predict"`. */
  function Value(c: Command): string {
    match c
    case Download => "download"
    case Predict => "predict"
  }

  /** The enum lookup `Command(s)`: the member whose value equals `s`, or
      `None` where Python raises ValueError. */
  function FromValue(s: string): (r: Option<Command>)
    ensures r.Some? ==> Value(r.value) == s
    ensures r.None? <==> forall c :: Value(c) != s
  {
    if s == "download" then Some(Download)
    else if s == "predict" then Some(Predict)
    else None
  }

  /** `validate_command(s)`: the lookup's ValueError is caught, so the check
      always answers, and it answers true exactly for the two command values. */
  function ValidateCommand(s: string): (ok: bool)
    ensures ok <==> s == "download" || s == "predict"
    ensures ok <==> exists c :: Value(c) == s
  {
    match FromValue(s)
    case Some(_) => true
    case None => false
  }

  /** Looking a member up by its own value gives the member back. */
  lemma RoundTrip(c: Command)
    ensures FromValue(Value(c)) == Some(c)
    ensures ValidateCommand(Value(c))
  {
  }

  /** The two members have different values. */
  lemma ValueInjective(a: Command, b: Command)
    requires Value(a) == Value(b)
    ensures a == b
  {
  }
}
