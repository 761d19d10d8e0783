// Supplier connections (src/connections.rs): versioned configuration and the availability epoch that
// ends every offer of a supplier when its search is switched off.
module Connections {
  import opened Wrappers

  datatype Connection = Connection(
    searchEnabled: bool, servicingEnabled: bool, bookingEnabled: bool, ticketingEnabled: bool,
    timeoutSeconds: int, version: int, epoch: int)

  datatype Update = Update(
    searchEnabled: bool, servicingEnabled: bool, bookingEnabled: bool, ticketingEnabled: bool,
    timeoutSeconds: int, expectedVersion: int)

  datatype UpdateFailure = InvalidRequest | ConfigurationChanged | NoActiveSuppliers

  type Rows = map<string, Connection>

  function Updated(row: Connection, input: Update): Connection {
    Connection(input.searchEnabled, input.servicingEnabled, input.bookingEnabled, input.ticketingEnabled,
               input.timeoutSeconds, row.version + 1,
               row.epoch + if row.searchEnabled && !input.searchEnabled then 1 else 0)
  }

  predicate UpdateValid(supplier: string, input: Update) {
    supplier in ["firsttrip", "takeoff", "triplover"] && 1 <= input.timeoutSeconds <= 120
  }

  function UpdateRow(rows: Rows, supplier: string, input: Update): (Rows, Result<Connection, UpdateFailure>) {
    if !UpdateValid(supplier, input) then (rows, Err(InvalidRequest))
    else if supplier !in rows || rows[supplier].version != input.expectedVersion then (rows, Err(ConfigurationChanged))
    else
      var row := Updated(rows[supplier], input);
      (rows[supplier := row], Ok(row))
  }

  // The epochs a new Search carries: those of the suppliers enabled at one instant.
  function EnabledEpochs(rows: Rows): map<string, int> {
    map supplier | supplier in rows && rows[supplier].searchEnabled :: rows[supplier].epoch
  }

  predicate StillValid(rows: Rows, supplier: string, epoch: int) {
    supplier in rows && rows[supplier].searchEnabled && rows[supplier].epoch == epoch
  }

  predicate Carries(epochs: map<string, int>, supplier: string, epoch: int) {
    supplier in epochs && epochs[supplier] == epoch
  }

  // The row saved for an update: its switches and timeout, the next version, and an epoch that moves
  // only when search goes from on to off.
  ghost predicate Configures(input: Update, was: Connection, now: Connection) {
    && now.searchEnabled == input.searchEnabled && now.servicingEnabled == input.servicingEnabled
    && now.bookingEnabled == input.bookingEnabled && now.ticketingEnabled == input.ticketingEnabled
    && now.timeoutSeconds == input.timeoutSeconds && now.version == was.version + 1
    && (was.searchEnabled && !input.searchEnabled ==> now.epoch == was.epoch + 1)
    && (!was.searchEnabled || input.searchEnabled ==> now.epoch == was.epoch)
  }

  class ConnectionTable {
    var rows: Rows

    constructor (rows: Rows)
      ensures this.rows == rows
    {
      this.rows := rows;
    }

    method Save(supplier: string, input: Update) returns (saved: Result<Connection, UpdateFailure>)
      modifies this
      ensures (rows, saved) == UpdateRow(old(rows), supplier, input)
      ensures saved == Err(InvalidRequest) <==>
              (supplier != "firsttrip" && supplier != "takeoff" && supplier != "triplover") || input.timeoutSeconds < 1 || 120 < input.timeoutSeconds
      ensures saved.Ok? || saved == Err(ConfigurationChanged) || saved == Err(InvalidRequest)
      ensures saved == Err(ConfigurationChanged) ==> supplier in old(rows) ==> old(rows)[supplier].version != input.expectedVersion
      ensures saved.Err? ==> rows == old(rows)
      ensures saved.Ok? ==>
                && supplier in old(rows) && old(rows)[supplier].version == input.expectedVersion
                && rows == old(rows)[supplier := saved.value] && Configures(input, old(rows)[supplier], saved.value)
    {
      if !UpdateValid(supplier, input) {
        return Err(InvalidRequest);
      }
      if supplier !in rows || rows[supplier].version != input.expectedVersion {
        return Err(ConfigurationChanged);
      }
      var row := rows[supplier];
      var epoch := row.epoch;
      if row.searchEnabled && !input.searchEnabled {
        epoch := epoch + 1;
      }
      row := Connection(input.searchEnabled, input.servicingEnabled, input.bookingEnabled, input.ticketingEnabled,
                        input.timeoutSeconds, row.version + 1, epoch);
      rows := rows[supplier := row];
      saved := Ok(row);
    }

    method SearchSnapshot() returns (active: Result<map<string, int>, UpdateFailure>)
      ensures active == if EnabledEpochs(rows) == map[] then Err(NoActiveSuppliers) else Ok(EnabledEpochs(rows))
      // It is refused exactly while every supplier is switched off, and otherwise holds what is valid now.
      ensures active.Err? <==> forall supplier :: supplier in rows ==> !rows[supplier].searchEnabled
      ensures active.Ok? ==>
                forall supplier, epoch :: StillValid(rows, supplier, epoch) <==> Carries(active.value, supplier, epoch)
    {
      var epochs := map supplier | supplier in rows && rows[supplier].searchEnabled :: rows[supplier].epoch;
      assert forall supplier :: supplier in rows && rows[supplier].searchEnabled ==> supplier in epochs;
      if epochs == map[] {
        return Err(NoActiveSuppliers);
      }
      active := Ok(epochs);
    }
  }

  // ---- The epoch over a run of updates ----------------------------------------------------------

  // One committed change, or none: suppliers are never removed.
  ghost predicate Evolves(was: Rows, now: Rows) {
    forall supplier :: supplier in was ==>
      && supplier in now
      && was[supplier].version <= now[supplier].version
      && now[supplier].epoch ==
         was[supplier].epoch + if was[supplier].searchEnabled && !now[supplier].searchEnabled then 1 else 0
  }

  ghost predicate History(trace: seq<Rows>) {
    forall i, j {:trigger trace[i], trace[j]} :: 0 <= i && j == i + 1 && j < |trace| ==> Evolves(trace[i], trace[j])
  }

  lemma UpdateEvolves(rows: Rows, supplier: string, input: Update)
    ensures Evolves(rows, UpdateRow(rows, supplier, input).0)
  {
  }

  lemma {:induction false} EpochGrows(trace: seq<Rows>, supplier: string, i: nat, j: nat)
    requires History(trace) && i <= j < |trace| && supplier in trace[i]
    ensures supplier in trace[j] && trace[i][supplier].epoch <= trace[j][supplier].epoch
    decreases j
  {
    if i < j {
      EpochGrows(trace, supplier, i, j - 1);
      assert Evolves(trace[j - 1], trace[j]);
    }
  }

  // For a supplier enabled at i, the epoch at j is still the same exactly when no update between
  // them switched search off; switching it on again does not bring the epoch back.
  lemma {:induction false} EpochStandsIffNeverDisabled(trace: seq<Rows>, supplier: string, i: nat, j: nat)
    requires History(trace) && i <= j < |trace| && supplier in trace[i] && trace[i][supplier].searchEnabled
    ensures supplier in trace[j]
    ensures trace[j][supplier].epoch == trace[i][supplier].epoch <==>
            forall k :: i <= k <= j ==> supplier in trace[k] && trace[k][supplier].searchEnabled
    decreases j
  {
    EpochGrows(trace, supplier, i, j);
    if i < j {
      EpochStandsIffNeverDisabled(trace, supplier, i, j - 1);
      EpochGrows(trace, supplier, i, j - 1);
      assert Evolves(trace[j - 1], trace[j]);
    }
  }

  // An epoch taken while enabled is valid later exactly when search was never off in between.
  lemma ValidIffNeverDisabled(trace: seq<Rows>, supplier: string, i: nat, j: nat)
    requires History(trace) && i <= j < |trace| && supplier in EnabledEpochs(trace[i])
    ensures StillValid(trace[j], supplier, EnabledEpochs(trace[i])[supplier]) <==>
            forall k :: i <= k <= j ==> supplier in trace[k] && trace[k][supplier].searchEnabled
  {
    EpochStandsIffNeverDisabled(trace, supplier, i, j);
  }

  // Two administrators that read the same version cannot both save.
  lemma SecondSaveRefused(rows: Rows, supplier: string, first: Update, trace: seq<Rows>, second: Update)
    requires History(trace) && trace != [] && trace[0] == UpdateRow(rows, supplier, first).0
    requires UpdateRow(rows, supplier, first).1.Ok? && second.expectedVersion == first.expectedVersion
    requires UpdateValid(supplier, second)
    ensures UpdateRow(trace[|trace| - 1], supplier, second) == (trace[|trace| - 1], Err(ConfigurationChanged))
  {
    VersionGrows(trace, supplier, |trace| - 1);
  }

  lemma {:induction false} VersionGrows(trace: seq<Rows>, supplier: string, j: nat)
    requires History(trace) && j < |trace| && supplier in trace[0]
    ensures supplier in trace[j] && trace[0][supplier].version <= trace[j][supplier].version
    decreases j
  {
    if 0 < j {
      VersionGrows(trace, supplier, j - 1);
      assert Evolves(trace[j - 1], trace[j]);
    }
  }
}
