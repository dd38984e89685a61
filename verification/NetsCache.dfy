/**
  The saved nets, cached in memory and read again when the file's modification
  time changes.  The file may be replaced between reading that time and reading
  the file.
*/
module NetsCache {
  import opened Options

  datatype Role = PowerSupply | PowerSupply2Q | Battery | Eload | OtherRole(name: string)

  /** The ceilings that a net declares; either may be missing, or not a number. */
  datatype Limits = Limits(maxVoltage: Option<real>, maxCurrent: Option<real>)

  datatype Record = Record(
    name: Option<string>, role: Option<Role>, address: string, channel: Option<string>, pin: Option<string>,
    limits: Option<Limits>)

  /** What is on disk between two changes.  `Broken` is a file that cannot be read or looked at. */
  datatype Version =
    | Missing
    | Broken
    | Present(mtime: int, list: Option<seq<Record>>)     // None: not JSON, or no list

  function ListOf(version: Version): seq<Record> {
    if version.Present? && version.list.Some? then version.list.value else []
  }

  /** What callers are to see of a version: its records, or none where there is no list to be read. */
  predicate Lists(version: Version, nets: seq<Record>) {
    match version
    case Present(_, Some(list)) => nets == list
    case _ => nets == []
  }

  predicate IsNamed(record: Record, name: string) {
    record.name == Some(name) && name != ""
  }

  /** The last record of that name. */
  function FindByName(nets: seq<Record>, name: string): (found: Option<Record>)
    ensures found.Some? <==> exists k :: 0 <= k < |nets| && IsNamed(nets[k], name)
    ensures found.Some? ==> exists k :: 0 <= k < |nets| && found.value == nets[k] && IsNamed(nets[k], name)
                                        && forall later :: k < later < |nets| ==> !IsNamed(nets[later], name)
  {
    if nets == [] then None
    else if IsNamed(nets[|nets| - 1], name) then Some(nets[|nets| - 1])
    else FindByName(nets[..|nets| - 1], name)
  }

  /** Any record but one without a name is found by its name, unless a later one has it too. */
  lemma FindsTheLast(nets: seq<Record>, name: string)
    ensures FindByName(nets, name).Some? <==> name != "" && exists k :: 0 <= k < |nets| && nets[k].name == Some(name)
    ensures forall k :: 0 <= k < |nets| && name != "" && nets[k].name == Some(name)
                        && (forall later :: k < later < |nets| ==> nets[later].name != Some(name)) ==>
              FindByName(nets, name) == Some(nets[k])
  {
    var found := FindByName(nets, name);
    if found.Some? {
      var k :| 0 <= k < |nets| && found.value == nets[k] && IsNamed(nets[k], name)
               && forall later :: k < later < |nets| ==> !IsNamed(nets[later], name);
    }
    hide FindByName;
    assert forall k :: 0 <= k < |nets| ==> (IsNamed(nets[k], name) <==> nets[k].name == Some(name) && name != "");
  }

  /** No two versions of the file have the same modification time, and none has time zero. */
  ghost predicate Distinct(history: seq<Version>) {
    forall a, b :: 0 <= a < |history| && 0 <= b < |history| && history[a].Present? && history[b].Present? ==>
      history[a].mtime != 0 && (history[a].mtime == history[b].mtime ==> a == b)
  }

  /** The cache pairs the time of one version with the contents of that version, or of a later one. */
  ghost predicate Paired(mtime: int, nets: seq<Record>, history: seq<Version>, last: nat) {
    mtime == 0
    || exists i, j :: 0 <= i <= j <= last < |history| && history[i].Present? && history[i].mtime == mtime && nets == ListOf(history[j])
  }

  /** So if the stored time is that of the file as it is now, the cached list is the file's. */
  lemma PairedIsCurrent(mtime: int, nets: seq<Record>, history: seq<Version>, last: nat, now: nat)
    requires Distinct(history) && Paired(mtime, nets, history, last) && last <= now < |history|
    requires history[now].Present? && history[now].mtime == mtime
    ensures nets == ListOf(history[now])
  {
  }

  lemma PairedStays(mtime: int, nets: seq<Record>, history: seq<Version>, last: nat, longer: seq<Version>, later: nat)
    requires Paired(mtime, nets, history, last) && history <= longer && last <= later < |longer|
    ensures Paired(mtime, nets, longer, later)
  {
    if mtime != 0 {
      var i, j :| 0 <= i <= j <= last < |history| && history[i].Present? && history[i].mtime == mtime && nets == ListOf(history[j]);
      assert longer[i] == history[i] && longer[j] == history[j];
    }
  }

  class NetsCache {
    var nets: Option<seq<Record>>
    var mtime: int
    var nameIndex: map<string, Record>

    function Nets(): seq<Record>
      reads this
    {
      if nets.Some? then nets.value else []
    }

    /** The index finds, under each name, the last record that has it. */
    ghost predicate Valid()
      reads this
    {
      && (forall name :: name in nameIndex <==> FindByName(Nets(), name).Some?)
      && (forall name :: name in nameIndex ==> FindByName(Nets(), name) == Some(nameIndex[name]))
    }

    constructor ()
      ensures Valid() && nets == None && mtime == 0
    {
      nets := None;
      mtime := 0;
      nameIndex := map[];
    }

    method BuildIndex()
      requires nets.Some?
      modifies this`nameIndex
      ensures Valid()
    {
      nameIndex := map[];
      var k := 0;
      while k < |nets.value|
        invariant 0 <= k <= |nets.value|
        invariant forall name :: name in nameIndex <==> FindByName(nets.value[..k], name).Some?
        invariant forall name :: name in nameIndex ==> FindByName(nets.value[..k], name) == Some(nameIndex[name])
      {
        var record := nets.value[k];
        assert nets.value[..k + 1][..k] == nets.value[..k];
        if record.name.Some? && record.name.value != "" {
          nameIndex := nameIndex[record.name.value := record];
        }
        k := k + 1;
      }
      assert nets.value[..k] == nets.value;
    }

    /**
      Looks at the file when it is at version `i` of its history, and reads it,
      if it does, at version `j`.  Unless the file could not be looked at, the
      list is then that of a version between the two; and it is never taken for
      that of a version that it is not.
    */
    method ReloadIfNeeded(history: seq<Version>, last: nat, i: nat, j: nat)
      requires Valid() && Distinct(history) && last <= i <= j < |history| && Paired(mtime, Nets(), history, last)
      modifies this
      ensures Valid() && nets.Some? && Paired(mtime, Nets(), history, j)
      ensures !history[i].Broken? ==> exists k :: i <= k <= j && Lists(history[k], Nets())
    {
      PairedStays(mtime, Nets(), history, last, history, j);
      match history[i] {
        case Missing =>
          nets := Some([]);
          nameIndex := map[];
          mtime := 0;
          assert Nets() == ListOf(history[i]);
        case Broken =>
          if nets.None? {
            nets := Some([]);
            nameIndex := map[];
          }
        case Present(current, _) =>
          if current != mtime {
            nets := Some(ListOf(history[j]));
            mtime := current;
            BuildIndex();
          } else {
            PairedIsCurrent(mtime, Nets(), history, last, i);
            if nets.None? {
              nets := Some([]);
            }
          }
          assert Nets() == ListOf(history[i]) || Nets() == ListOf(history[j]);
      }
    }

    method GetNets(history: seq<Version>, last: nat, i: nat, j: nat) returns (list: seq<Record>)
      requires Valid() && Distinct(history) && last <= i <= j < |history| && Paired(mtime, Nets(), history, last)
      modifies this
      ensures Valid() && Paired(mtime, Nets(), history, j)
      ensures !history[i].Broken? ==> exists k :: i <= k <= j && Lists(history[k], list)
    {
      ReloadIfNeeded(history, last, i, j);
      list := nets.value;
    }

    /** The last record of that name in the list that `GetNets` would have returned. */
    method LookUp(name: string, history: seq<Version>, last: nat, i: nat, j: nat) returns (found: Option<Record>)
      requires Valid() && Distinct(history) && last <= i <= j < |history| && Paired(mtime, Nets(), history, last)
      modifies this
      ensures Valid() && Paired(mtime, Nets(), history, j)
      ensures !history[i].Broken? ==> exists k :: i <= k <= j && Lists(history[k], Nets())
      ensures found == FindByName(Nets(), name)
    {
      ReloadIfNeeded(history, last, i, j);
      found := if name in nameIndex then Some(nameIndex[name]) else None;
    }

    /** The last record of that name if it has the role, and otherwise the first that has both. */
    method LookUpWithRole(name: string, role: Role, history: seq<Version>, last: nat, i: nat, j: nat)
      returns (found: Option<Record>)
      requires Valid() && Distinct(history) && last <= i <= j < |history| && Paired(mtime, Nets(), history, last)
      modifies this
      ensures Valid() && Paired(mtime, Nets(), history, j)
      ensures !history[i].Broken? ==> exists k :: i <= k <= j && Lists(history[k], Nets())
      ensures found.Some? <==> exists k :: 0 <= k < |Nets()| && Nets()[k].name == Some(name) && Nets()[k].role == Some(role)
      ensures found.Some? ==> found.value in Nets() && found.value.name == Some(name) && found.value.role == Some(role)
      ensures FindByName(Nets(), name).Some? && FindByName(Nets(), name).value.role == Some(role) ==>
                found == FindByName(Nets(), name)
      ensures found.Some? && found != FindByName(Nets(), name) ==>
                exists k :: 0 <= k < |Nets()| && found.value == Nets()[k]
                            && forall other :: 0 <= other < k ==> !(Nets()[other].name == Some(name) && Nets()[other].role == Some(role))
    {
      ReloadIfNeeded(history, last, i, j);
      if name in nameIndex && nameIndex[name].role == Some(role) {
        return Some(nameIndex[name]);
      }
      for k := 0 to |Nets()|
        invariant forall other :: 0 <= other < k ==> !(Nets()[other].name == Some(name) && Nets()[other].role == Some(role))
      {
        if Nets()[k].name == Some(name) && Nets()[k].role == Some(role) {
          return Some(Nets()[k]);
        }
      }
      found := None;
    }

    /** Nothing has time zero, so the next look at the file reads it. */
    method Invalidate()
      requires Valid()
      modifies this`mtime
      ensures Valid() && forall history, last :: Paired(mtime, Nets(), history, last)
    {
      mtime := 0;
    }
  }
}
