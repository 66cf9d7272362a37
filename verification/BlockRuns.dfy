/** A managed block that nobody edits follows its source. */
module BlockRuns {
  import opened Prelude
  import opened TextLines
  import opened AppendBlock

  /** There is no block, or the one there is has not been edited since it was put there. */
  ghost predicate Unedited(m: Managed, path: string) {
    match Parse(Text(m.file), path)
    case Malformed => false
    case Absent => true
    case Found(_, block, _, _) => AppliedOf(m.info) == Some(block)
  }

  /** A plan conflicts exactly when the markers are broken, or there is a block that is neither the recorded one nor, where
      none is recorded, the one that would be written. */
  lemma ConflictsExactly(m: Managed, source: string, version: string, path: string)
    requires NotConverted(m)
    ensures PlanFor(m.file, source, version, path, m.info).conflict <==>
            m.file.Some? &&
            match Parse(Text(m.file), path)
            case Malformed => true
            case Absent => false
            case Found(_, block, _, _) =>
              block != (if AppliedOf(m.info).Some? then AppliedOf(m.info).value else Render(path, version, Read(source)))
  {
    hide Parse, Render, Read, NormalizePayload;
  }

  /** The block in the file carries this source. */
  ghost predicate Carries(m: Managed, source: string, path: string) {
    var p := Parse(Text(m.file), path);
    p.Found? && NormalizePayload(p.payload) == NormalizePayload(Read(source)) && AppliedOf(m.info) == Some(p.block)
  }

  /** An update that meets an unedited block, or none, leaves one that carries its source. */
  lemma UpdateCarries(m: Managed, source: string, version: string, path: string)
    requires NotConverted(m) && Admissible(Update(source, version), path) && Unedited(m, path)
    ensures Carries(Updated(m, source, version, path), source, path)
    ensures NotConverted(Updated(m, source, version, path)) && Unedited(Updated(m, source, version, path), path)
  {
    NoConflict(m, source, version, path);
    StaysAppend(m, source, version, path);
    if PlanFor(m.file, source, version, path, m.info).updated.Some? {
      WrittenCarries(m, source, version, path);
    } else {
      KeptCarries(m, source, version, path);
    }
    hide *;
    hide Carries, NotConverted, PlanFor, Updated;
    CarriesIsUnedited(Updated(m, source, version, path), source, path);
  }

  lemma CarriesIsUnedited(m: Managed, source: string, path: string)
    requires Carries(m, source, path)
    ensures Unedited(m, path)
  {
    hide Parse, Text, NormalizePayload, Read;
  }

  lemma WrittenCarries(m: Managed, source: string, version: string, path: string)
    requires NotConverted(m) && Admissible(Update(source, version), path)
    requires PlanFor(m.file, source, version, path, m.info).updated.Some?
    ensures Carries(Updated(m, source, version, path), source, path)
  {
    UpdateLeaves(m, source, version, path);
    NormalizedEnds(Read(source));
    hide Parse, Text, NormalizePayload, Read, Updated, PlanFor, Render, UpdateFrame, Surroundings, Admissible, NotConverted;
  }

  lemma KeptCarries(m: Managed, source: string, version: string, path: string)
    requires Admissible(Update(source, version), path)
    requires !PlanFor(m.file, source, version, path, m.info).conflict
    requires PlanFor(m.file, source, version, path, m.info).updated.None?
    ensures Carries(Updated(m, source, version, path), source, path)
  {
    PlanCases(m.file, source, version, path, m.info);
    NormalizedEnds(Read(source));
    var p := Parse(Text(m.file), path);
    if p.block == Render(path, version, Read(source)) {
      SameBlockSamePayload(Text(m.file), source, version, path);
    }
    hide Parse, NormalizePayload, Read, PlanFor, Render, Admissible;
  }

  /** A found block that is what would be rendered has the payload that would be rendered. */
  lemma SameBlockSamePayload(text: string, source: string, version: string, path: string)
    requires Admissible(Update(source, version), path)
    requires Parse(text, path).Found? && Parse(text, path).block == Render(path, version, Read(source))
    ensures Parse(text, path).payload == NormalizePayload(Read(source))
  {
    FoundMeans(text, path);
    var p := Parse(text, path);
    hide Parse, Render, Quiet, WholeLines, Clear, PayloadLines, NormalizePayload, GoodNames;
    PlacedBlockParses(p.before, path, version, Read(source), p.after);
  }

  lemma NoConflict(m: Managed, source: string, version: string, path: string)
    requires NotConverted(m) && Unedited(m, path)
    ensures !PlanFor(m.file, source, version, path, m.info).conflict
  {
    ConflictsExactly(m, source, version, path);
    hide Parse, Render, Read, NormalizePayload, PlanFor, Text;
  }

  lemma StaysAppend(m: Managed, source: string, version: string, path: string)
    requires NotConverted(m)
    ensures
      var plan, m' := PlanFor(m.file, source, version, path, m.info), Updated(m, source, version, path);
      && NotConverted(m')
      && (!plan.conflict ==> AppliedOf(m'.info) == plan.applied)
      && (!plan.conflict && plan.updated.None? ==> m'.file == m.file)
  {
    hide PlanFor;
  }

  /** Edits that leave the block alone, or take all of it out. */
  ghost predicate SparesTheBlock(m: Managed, e: Event, path: string) {
    e.UserEdit? ==> Unedited(m.(file := e.file), path)
  }

  ghost predicate AllSpare(m: Managed, events: seq<Event>, path: string) {
    events == []
    || (AllSpare(m, events[..|events| - 1], path)
        && SparesTheBlock(AppendBlock.Run(m, events[..|events| - 1], path), events[|events| - 1], path))
  }

  lemma RetireLeavesUnedited(m: Managed, path: string)
    requires NotConverted(m) && Unedited(m, path)
    ensures NotConverted(Retired(m, path)) && Unedited(Retired(m, path), path)
    ensures Parse(Text(Retired(m, path).file), path).Absent?
  {
    EmptyIsQuiet(path);
    AbsentMeans("", path);
    if m.file.Some? && Parse(Text(m.file), path).Found? {
      FoundMeans(Text(m.file), path);
      ReadHasNoReturn(m.file.value);
      var p := Parse(Text(m.file), path);
      TakenOut(m, p.before, p.after, path);
    }
    hide Parse, Read;
  }

  lemma TakenOut(m: Managed, before: string, after: string, path: string)
    requires '\r' !in before && '\r' !in after && Quiet(before + after, path)
    ensures Parse(Read(before + after), path).Absent?
  {
    hide Parse, Quiet;
    WrittenReadsBack(before + after);
    AbsentMeans(before + after, path);
  }

  /** Over any run in which the user spares the block: no update conflicts, and after each the block carries the source of
      that update, whatever sources, versions, retirements and edits around it came before. */
  lemma {:induction false} BlockFollowsItsSource(m: Managed, events: seq<Event>, path: string)
    requires NotConverted(m) && Unedited(m, path) && AllSpare(m, events, path)
    requires forall e :: e in events ==> Admissible(e, path)
    ensures NotConverted(AppendBlock.Run(m, events, path)) && Unedited(AppendBlock.Run(m, events, path), path)
    ensures events != [] && events[|events| - 1].Update? ==>
              Carries(AppendBlock.Run(m, events, path), events[|events| - 1].source, path)
    ensures events != [] && events[|events| - 1].Retire? ==>
              Parse(Text(AppendBlock.Run(m, events, path).file), path).Absent?
  {
    hide Admissible, Unedited, Carries, Updated, Retired, Parse, NotConverted;
    if events != [] {
      var front, e := events[..|events| - 1], events[|events| - 1];
      assert e in events;
      BlockFollowsItsSource(m, front, path);
      var before := AppendBlock.Run(m, front, path);
      match e
      case Update(source, version) => UpdateCarries(before, source, version, path);
      case Retire => RetireLeavesUnedited(before, path);
      case UserEdit(file) => EditKeepsRecord(before, file);
    }
  }

  lemma EditKeepsRecord(m: Managed, file: Option<string>)
    requires NotConverted(m)
    ensures NotConverted(m.(file := file))
  {
  }
}
