// The `Experiment` object: the loaded table, a working copy that the
// processing steps replace one after another, and a dictionary of the
// counts those steps record.
module Experiments {
  import opened Records
  import opened Processing
  import opened Balancing

  /** A value of the `stats` dictionary: a count, or the list of excluded subjects. */
  datatype StatValue = Count(n: int) | SubjectList(users: seq<int>)

  /** How a processing step ended: it ran, it found no data, it found a needed column missing, or it raised. */
  datatype Outcome = Done | NoData | NotReady | Raised(error: Error)

  /** `filter_trials`' bounds. */
  const FilterMinAngle := 3.0
  const FilterMaxAngle := 40.0

  class Experiment {
    var rawData: Option<Table>
    var data: Option<Table>
    var stats: map<string, StatValue>

    /**
     * Construction loads the file: `loaded` is the table `read_csv` returns,
     * or `None` when the file is not found, in which case both stay `None`.
     */
    constructor (loaded: Option<Table>)
      ensures rawData == loaded && data == loaded && stats == map[]
    {
      rawData := loaded;
      data := loaded;
      stats := map[];
    }

    /** `preprocess`: remap the face ids and recompute `end_angle` of the working copy, if there is one. */
    method Preprocess() returns (o: Outcome)
      modifies this`data
      ensures old(data).None? ==> data == None && o == NoData
      ensures old(data).Some? ==> data == Some(TransformAngles(RenameFaceIds(old(data).value))) && o == Done
    {
      if data.None? {
        return NoData;
      }
      data := Some(RenameFaceIds(data.value));
      data := Some(TransformAngles(data.value));
      o := Done;
    }

    /**
     * `filter_trials`: write `angle_valid` with the (3, 40) defaults and
     * record how many trials the rule invalidates. Without `end_angle` the
     * validation raises and nothing changes.
     */
    method FilterTrials(minAngle: real := FilterMinAngle, maxAngle: real := FilterMaxAngle) returns (o: Outcome)
      modifies this`data, this`stats
      ensures old(data).None? ==> data == old(data) && stats == old(stats) && o == NoData
      ensures old(data).Some? && !old(data).value.hasEnd ==>
                data == old(data) && stats == old(stats) && o == Raised(MissingColumn("end_angle"))
      ensures old(data).Some? && old(data).value.hasEnd ==>
                && data == Some(ValidateAngles(old(data).value, minAngle, maxAngle).value)
                && stats == old(stats)["trials_invalidated_angle" := Count(|data.value.rows| - CountValid(data.value.rows))]
                && o == Done
    {
      if data.None? {
        return NoData;
      }
      var v := ValidateAngles(data.value, minAngle, maxAngle);
      if v.Failure? {
        return Raised(v.error);
      }
      data := Some(v.value);
      var invalidated := |v.value.rows| - CountValid(v.value.rows);
      stats := stats["trials_invalidated_angle" := Count(invalidated)];
      o := Done;
    }

    /**
     * `exclude_subjects`: without data or without `angle_valid` nothing
     * changes; otherwise the working copy loses every trial of the excluded
     * subjects and their list is recorded.
     */
    method ExcludeSubjects(maxInvalid: int := 2) returns (o: Outcome)
      modifies this`data, this`stats
      ensures old(data).None? ==> data == old(data) && stats == old(stats) && o == NoData
      ensures old(data).Some? && !old(data).value.hasAngleValid ==> data == old(data) && stats == old(stats) && o == NotReady
      ensures old(data).Some? && old(data).value.hasAngleValid ==>
                var r := Processing.ExcludeSubjects(old(data).value, maxInvalid).value;
                && data == Some(r.0)
                && stats == old(stats)["excluded_subjects" := SubjectList(r.1)]
                && |data.value.rows| <= |old(data).value.rows|
                && o == Done
    {
      if data.None? {
        return NoData;
      }
      if !data.value.hasAngleValid {
        return NotReady;
      }
      var r := Processing.ExcludeSubjects(data.value, maxInvalid);
      data := Some(r.value.0);
      stats := stats["excluded_subjects" := SubjectList(r.value.1)];
      o := Done;
    }

    /**
     * `balance_trials`: the absolute-D pairs of the working copy, with the
     * number of trials they use recorded; the working copy is not changed.
     * A missing column raises only once the loop reads it.
     */
    method BalanceTrials() returns (o: Outcome, pairs: Option<seq<Pair>>)
      modifies this`stats
      ensures old(data).None? ==> stats == old(stats) && o == NoData && pairs == None
      ensures old(data).Some? && BalanceTable(data.value, AbsoluteD).Failure? ==>
                stats == old(stats) && o == Raised(BalanceTable(data.value, AbsoluteD).error) && pairs == None
      ensures old(data).Some? && BalanceTable(data.value, AbsoluteD).Success? ==>
                && pairs == Some(Balance(data.value.rows, AbsoluteD))
                && stats == old(stats)["trials_used_in_pairs" := Count(2 * |pairs.value|)]
                && 2 * |pairs.value| <= CountValid(data.value.rows)
                && o == Done
    {
      if data.None? {
        return NoData, None;
      }
      var b := BalanceTable(data.value, AbsoluteD);
      if b.Failure? {
        return Raised(b.error), None;
      }
      var ps, used := Balancing.BalanceTrials(data.value.rows, AbsoluteD);
      BalanceSpec(data.value.rows, AbsoluteD);
      stats := stats["trials_used_in_pairs" := Count(|used|)];
      o, pairs := Done, Some(ps);
    }

    /** `subjects`: the distinct user numbers of the working copy in ascending order, or none without data. */
    function Subjects(): (r: seq<int>)
      reads this
      ensures StrictlyIncreasing(r)
      ensures data.None? ==> r == []
      ensures data.Some? ==> forall u :: u in r <==> exists i :: 0 <= i < |data.value.rows| && data.value.rows[i].user == u
    {
      if data.Some? then
        var r := SortedUnique(Users(data.value.rows));
        forall u ensures u in Users(data.value.rows) <==> exists i :: 0 <= i < |data.value.rows| && data.value.rows[i].user == u {
          UserInColumn(data.value.rows, u);
        }
        r
      else []
    }
  }
}
