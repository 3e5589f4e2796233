/** `main` on the command-line path: pick the modules from the arguments, then
    run the incident ingestion and, after it, the change ingestion. */
module App {
  import opened Ingestion
  import opened Selection

  /** What reading, parsing and validating a module's template file gives:
      a rejection (the code calls `System.exit(0)`) or the chunk size and the
      services the run talks to. */
  datatype Setup = Rejected | Accepted(chunkSize: int, backend: Backend)

  /** One ingestion run that `main` started, with what it did. */
  datatype Ingested = Ingested(target: Module, trace: Trace)

  function FormOf(m: Module): Form {
    match m
    case Incidents => HelpDesk
    case Changes => ChangeForm
  }

  function SetupFor(m: Module, incident: Setup, change: Setup): Setup {
    match m
    case Incidents => incident
    case Changes => change
  }

  /** The chunk size of an accepted configuration is positive (the validator
      that enforces it is not part of this model). */
  predicate WellConfigured(s: Setup) {
    s.Accepted? ==> s.chunkSize >= 1
  }

  /** Runs the planned modules in order; a rejected configuration ends the
      process, so no later module runs, while an exception inside a run is
      caught there and does not stop the next one. */
  method Launch(args: seq<string>, incident: Setup, change: Setup) returns (runs: seq<Ingested>, exited: bool)
    requires |args| > 0
    requires WellConfigured(incident) && WellConfigured(change)
    ensures |runs| <= |Plan(args)|
    ensures forall i :: 0 <= i < |runs| ==>
              var s := SetupFor(runs[i].target, incident, change);
              runs[i].target == Plan(args)[i] && s.Accepted? &&
              runs[i].trace == Run(FormOf(runs[i].target), s.backend, s.chunkSize)
    ensures exited <==> |runs| < |Plan(args)|
    ensures exited ==> SetupFor(Plan(args)[|runs|], incident, change).Rejected?
  {
    var readIncidents, readChange := ScanArguments(args);
    runs, exited := [], false;
    if readIncidents {
      match incident
      case Rejected =>
        exited := true;
        return;
      case Accepted(chunkSize, backend) =>
        var t := ReadAndIngest(HelpDesk, backend, chunkSize);
        runs := runs + [Ingested(Incidents, t)];
    }
    if readChange {
      match change
      case Rejected =>
        exited := true;
        return;
      case Accepted(chunkSize, backend) =>
        var t := ReadAndIngest(ChangeForm, backend, chunkSize);
        runs := runs + [Ingested(Changes, t)];
    }
  }
}
