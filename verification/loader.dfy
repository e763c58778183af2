/**
 * The institution manifest: a TOML document whose `institutions` array holds
 * one table per institution.  Loading validates every record against the
 * `Institution` shape, skips the invalid ones and the ones whose TLS client
 * files are missing, and keeps the rest in input order.
 *
 * Reading and decoding the file is foreign I/O: its outcome is the input
 * `ManifestRead`.  The file system is the set of paths that exist.
 */
module Loader {
  import opened Wrappers
  import opened Exc

  /** A decoded TOML value.  TOML has no null; integers, floats, booleans and dates are `Other`. */
  datatype Toml = Str(s: string) | Array(items: seq<Toml>) | Table(fields: map<string, Toml>) | Other(typeName: string)

  /**
   * What opening and decoding the manifest gave: no such file, a file that
   * exists but cannot be opened (a directory, no permission), one that does
   * not decode as TOML, or the decoded document.
   */
  datatype ManifestRead =
    | Missing
    | Unopenable(message: string)
    | Undecodable(message: string)
    | Parsed(document: map<string, Toml>)

  datatype Institution = Institution(
    name: string,
    fqdn: string,
    spConnectorId: string,
    clientCertPath: string,
    clientKeyPath: string)

  /** Which spelling a record uses for each aliased field: the alias (`spid`, `cert`, `key`) or the field name. */
  datatype Spelling = Spelling(spid: bool, cert: bool, key: bool)

  /** The key under which a field is read: its alias when present, else its own name. */
  function UsedKey(fields: map<string, Toml>, name: string, alias: string): (k: Option<string>)
    ensures k.Some? ==> k.value in fields && (k.value == alias || k.value == name)
    ensures k.None? <==> alias !in fields && name !in fields
  {
    if alias in fields then Some(alias) else if name in fields then Some(name) else None
  }

  /** The key a spelling choice uses for one aliased field. */
  function KeyFor(useAlias: bool, name: string, alias: string): string {
    if useAlias then alias else name
  }

  /** The table a record with the given spellings would hold for `inst`. */
  function Encode(inst: Institution, sp: Spelling): Toml {
    Table(map[
      "name" := Str(inst.name),
      "fqdn" := Str(inst.fqdn),
      KeyFor(sp.spid, "sp_connector_id", "spid") := Str(inst.spConnectorId),
      KeyFor(sp.cert, "client_cert_path", "cert") := Str(inst.clientCertPath),
      KeyFor(sp.key, "client_key_path", "key") := Str(inst.clientKeyPath)])
  }

  /**
   * `Institution.model_validate(item)`: a table with exactly the five
   * fields, each a string, each aliased field under its alias or its name.
   * A key that is not used for a field is an extra key and is rejected.
   */
  function Validate(item: Toml): Option<Institution> {
    if !item.Table? then None
    else
      var f := item.fields;
      var ks := UsedKey(f, "sp_connector_id", "spid");
      var kc := UsedKey(f, "client_cert_path", "cert");
      var kk := UsedKey(f, "client_key_path", "key");
      if "name" in f && "fqdn" in f && ks.Some? && kc.Some? && kk.Some?
         && f["name"].Str? && f["fqdn"].Str? && f[ks.value].Str? && f[kc.value].Str? && f[kk.value].Str?
         && f.Keys == {"name", "fqdn", ks.value, kc.value, kk.value}
      then Some(Institution(f["name"].s, f["fqdn"].s, f[ks.value].s, f[kc.value].s, f[kk.value].s))
      else None
  }

  /** Every record written with any spelling validates back to the institution it encodes. */
  lemma ValidateEncode(inst: Institution, sp: Spelling)
    ensures Validate(Encode(inst, sp)) == Some(inst)
  {
  }

  /**
   * Validation accepts exactly the encodings: a record validates to `inst`
   * if and only if it is `inst` written with some choice of spellings, so a
   * missing field, a non-string value or an extra key is rejected.
   */
  lemma ValidateExactly(item: Toml, inst: Institution)
    ensures Validate(item) == Some(inst) <==> exists sp :: item == Encode(inst, sp)
  {
    if Validate(item) == Some(inst) {
      var f := item.fields;
      var sp := Spelling("spid" in f, "cert" in f, "key" in f);
      var e := Encode(inst, sp).fields;
      assert e.Keys == f.Keys;
      assert forall k :: k in f ==> f[k] == e[k];
      assert item == Encode(inst, sp);
    }
    if exists sp :: item == Encode(inst, sp) {
      var sp :| item == Encode(inst, sp);
      ValidateEncode(inst, sp);
    }
  }

  /** A key that is neither a field name nor an alias makes any record invalid. */
  lemma ValidateRejectsExtra(fields: map<string, Toml>, extra: string, v: Toml)
    requires extra !in {"name", "fqdn", "sp_connector_id", "spid", "client_cert_path", "cert", "client_key_path", "key"}
    ensures Validate(Table(fields[extra := v])).None?
  {
    var f := fields[extra := v];
    assert extra in f.Keys;
  }

  /** Python's type name for a value, as an AttributeError message shows it. */
  function TypeName(item: Toml): string {
    match item
    case Str(_) => "str"
    case Array(_) => "list"
    case Table(_) => "dict"
    case Other(t) => t
  }

  /**
   * `item.get("fqdn", "Unknown")`, the name logged for an invalid record:
   * a table's `fqdn` value or "Unknown"; any other item has no `get` and
   * raises AttributeError, which ends the load.
   */
  function ReportedName(item: Toml): (r: Result<Toml>)
    ensures r.Ok? <==> item.Table?
    ensures r.Ok? && "fqdn" in item.fields ==> r.value == item.fields["fqdn"]
    ensures r.Ok? && "fqdn" !in item.fields ==> r.value == Str("Unknown")
    ensures r.Err? ==> r.error.AttributeError?
  {
    if item.Table? then Ok(if "fqdn" in item.fields then item.fields["fqdn"] else Str("Unknown"))
    else Err(AttributeError("'" + TypeName(item) + "' object has no attribute 'get'"))
  }

  /** `check_existence_file`: both TLS client files exist. */
  function CheckExistenceFile(inst: Institution, existing: set<string>): bool {
    inst.clientCertPath in existing && inst.clientKeyPath in existing
  }

  datatype SkipReason = Invalid | MissingCredentials

  /** A record that was not loaded: its 1-based position, the name logged for it, and why. */
  datatype Skip = Skip(ordinal: nat, shown: Toml, reason: SkipReason)

  datatype Selection = Selection(kept: seq<Institution>, skipped: seq<Skip>)

  /** Handling of the `ordinal`-th record, given what the earlier records gave. */
  function Step(acc: Result<Selection>, item: Toml, ordinal: nat, existing: set<string>): Result<Selection> {
    if acc.Err? then acc
    else
      var s := acc.value;
      match Validate(item)
      case None =>
        (match ReportedName(item)
         case Err(e) => Err(e)
         case Ok(name) => Ok(s.(skipped := s.skipped + [Skip(ordinal, name, Invalid)])))
      case Some(inst) =>
        if CheckExistenceFile(inst, existing) then Ok(s.(kept := s.kept + [inst]))
        else Ok(s.(skipped := s.skipped + [Skip(ordinal, Str(inst.fqdn), MissingCredentials)]))
  }

  /** The record loop over `items`, one `Step` per record in order. */
  function Select(items: seq<Toml>, existing: set<string>): Result<Selection>
    decreases |items|
  {
    if items == [] then Ok(Selection([], []))
    else Step(Select(items[..|items| - 1], existing), items[|items| - 1], |items|, existing)
  }

  /**
   * `load_institutions`: a missing file gives no institutions, an undecodable
   * one raises, a document without an `institutions` array gives no
   * institutions, and otherwise the records are selected.
   */
  function Load(read: ManifestRead, existing: set<string>): Result<Selection> {
    match read
    case Missing => Ok(Selection([], []))
    case Unopenable(m) => Err(OSError(m))
    case Undecodable(m) => Err(ValueError(m))
    case Parsed(doc) =>
      if "institutions" !in doc || !doc["institutions"].Array? then Ok(Selection([], []))
      else Select(doc["institutions"].items, existing)
  }

  /**
   * Loading raises exactly when the file exists but cannot be opened (the
   * OSError propagates), when it does not decode, or when its `institutions`
   * array holds a record that is not a table; a missing file is no error.
   */
  lemma LoadFails(read: ManifestRead, existing: set<string>)
    ensures Load(read, existing).Err? <==>
      || read.Unopenable?
      || read.Undecodable?
      || (&& read.Parsed? && "institutions" in read.document && read.document["institutions"].Array?
          && exists i :: 0 <= i < |read.document["institutions"].items| && !read.document["institutions"].items[i].Table?)
    ensures read.Unopenable? ==> Load(read, existing) == Err(OSError(read.message))
    ensures read.Missing? ==> Load(read, existing) == Ok(Selection([], []))
  {
    if read.Parsed? && "institutions" in read.document && read.document["institutions"].Array? {
      SelectOkIff(read.document["institutions"].items, existing);
    }
  }

  /** The records that are loaded, defined front to back: valid, with both client files present. */
  function Accepted(items: seq<Toml>, existing: set<string>): seq<Institution>
    decreases |items|
  {
    if items == [] then []
    else
      var v := Validate(items[0]);
      (if v.Some? && CheckExistenceFile(v.value, existing) then [v.value] else []) + Accepted(items[1..], existing)
  }

  lemma {:induction false} AcceptedSnoc(items: seq<Toml>, x: Toml, existing: set<string>)
    ensures var v := Validate(x);
      Accepted(items + [x], existing)
      == Accepted(items, existing) + (if v.Some? && CheckExistenceFile(v.value, existing) then [v.value] else [])
    decreases |items|
  {
    if items != [] {
      assert (items + [x])[1..] == items[1..] + [x];
      AcceptedSnoc(items[1..], x, existing);
    } else {
      assert [x][1..] == [];
    }
  }

  /** The loader succeeds exactly when every record is a table. */
  lemma {:induction false} SelectOkIff(items: seq<Toml>, existing: set<string>)
    ensures Select(items, existing).Ok? <==> forall i :: 0 <= i < |items| ==> items[i].Table?
    decreases |items|
  {
    if items != [] {
      var front := items[..|items| - 1];
      SelectOkIff(front, existing);
      assert forall i :: 0 <= i < |front| ==> front[i] == items[i];
    }
  }

  /**
   * What the loop keeps is exactly the valid, credential-complete records in
   * input order, and every record is either kept or skipped once.
   */
  lemma {:induction false} SelectKeepsAccepted(items: seq<Toml>, existing: set<string>)
    requires Select(items, existing).Ok?
    ensures Select(items, existing).value.kept == Accepted(items, existing)
    ensures |Select(items, existing).value.kept| + |Select(items, existing).value.skipped| == |items|
    decreases |items|
  {
    if items != [] {
      var front := items[..|items| - 1];
      var x := items[|items| - 1];
      assert Select(front, existing).Ok?;
      SelectKeepsAccepted(front, existing);
      assert items == front + [x];
      AcceptedSnoc(front, x, existing);
    }
  }

  /**
   * Every skip names a record position, positions increase, and a skip is
   * for invalidity exactly when its record did not validate.
   */
  ghost predicate SkipsOrdered(items: seq<Toml>, sk: seq<Skip>) {
    && (forall k :: 0 <= k < |sk| ==> 1 <= sk[k].ordinal <= |items|)
    && (forall k, l :: 0 <= k < l < |sk| ==> sk[k].ordinal < sk[l].ordinal)
    && (forall k :: 0 <= k < |sk| ==>
          (sk[k].reason == Invalid <==> Validate(items[sk[k].ordinal - 1]).None?))
  }

  /** Handling one more record keeps the skips ordered. */
  lemma StepKeepsSkipsOrdered(front: seq<Toml>, x: Toml, s: Selection, existing: set<string>)
    requires SkipsOrdered(front, s.skipped)
    requires Step(Ok(s), x, |front| + 1, existing).Ok?
    ensures SkipsOrdered(front + [x], Step(Ok(s), x, |front| + 1, existing).value.skipped)
  {
    var items := front + [x];
    var sk := Step(Ok(s), x, |front| + 1, existing).value.skipped;
    assert forall i :: 0 <= i < |front| ==> items[i] == front[i];
    assert sk == s.skipped || (|sk| == |s.skipped| + 1 && sk[..|s.skipped|] == s.skipped && sk[|s.skipped|].ordinal == |items|);
  }

  lemma {:induction false} SkipsAreOrdered(items: seq<Toml>, existing: set<string>)
    requires Select(items, existing).Ok?
    ensures SkipsOrdered(items, Select(items, existing).value.skipped)
    decreases |items|
  {
    if items != [] {
      var front := items[..|items| - 1];
      assert Select(front, existing).Ok?;
      SkipsAreOrdered(front, existing);
      assert items == front + [items[|items| - 1]];
      StepKeepsSkipsOrdered(front, items[|items| - 1], Select(front, existing).value, existing);
    }
  }

  /** Membership form of the selection: an institution is loaded iff some record validates to it with its files present. */
  lemma {:induction false} AcceptedMembers(items: seq<Toml>, existing: set<string>, inst: Institution)
    ensures inst in Accepted(items, existing)
      <==> exists i :: 0 <= i < |items| && Validate(items[i]) == Some(inst) && CheckExistenceFile(inst, existing)
    decreases |items|
  {
    if items != [] {
      AcceptedMembers(items[1..], existing, inst);
      if inst in Accepted(items[1..], existing) {
        var i :| 0 <= i < |items[1..]| && Validate(items[1..][i]) == Some(inst) && CheckExistenceFile(inst, existing);
        assert Validate(items[i + 1]) == Some(inst);
      }
      if exists i :: 0 <= i < |items| && Validate(items[i]) == Some(inst) && CheckExistenceFile(inst, existing) {
        var i :| 0 <= i < |items| && Validate(items[i]) == Some(inst) && CheckExistenceFile(inst, existing);
        if i > 0 {
          assert items[1..][i - 1] == items[i];
        }
      }
    }
  }

  /** An error part-way through is the final error: no later record changes it. */
  lemma {:induction false} SelectErrSticky(items: seq<Toml>, i: nat, existing: set<string>)
    requires i <= |items|
    requires Select(items[..i], existing).Err?
    ensures Select(items, existing) == Select(items[..i], existing)
    decreases |items| - i
  {
    if i < |items| {
      assert items[..i + 1][..i] == items[..i];
      SelectErrSticky(items, i + 1, existing);
    } else {
      assert items[..i] == items;
    }
  }

  /** The loader's record loop: validates, skips and appends one record at a time. */
  method LoadInstitutions(read: ManifestRead, existing: set<string>) returns (r: Result<Selection>)
    ensures r == Load(read, existing)
  {
    match read
    case Missing => return Ok(Selection([], []));
    case Unopenable(m) => return Err(OSError(m));
    case Undecodable(m) => return Err(ValueError(m));
    case Parsed(doc) =>
      if "institutions" !in doc || !doc["institutions"].Array? {
        return Ok(Selection([], []));
      }
      var items := doc["institutions"].items;
      var institutions: seq<Institution> := [];
      var skipped: seq<Skip> := [];
      var index := 0;
      while index < |items|
        invariant 0 <= index <= |items|
        invariant Select(items[..index], existing) == Ok(Selection(institutions, skipped))
      {
        var item := items[index];
        assert items[..index + 1][..index] == items[..index];
        assert items[..index + 1][index] == item;
        var ordinal := index + 1;
        var institution := Validate(item);
        if institution.None? {
          var name := ReportedName(item);
          if name.Err? {
            SelectErrSticky(items, index + 1, existing);
            return Err(name.error);
          }
          skipped := skipped + [Skip(ordinal, name.value, Invalid)];
        } else if !CheckExistenceFile(institution.value, existing) {
          skipped := skipped + [Skip(ordinal, Str(institution.value.fqdn), MissingCredentials)];
        } else {
          institutions := institutions + [institution.value];
        }
        index := index + 1;
      }
      assert items[..index] == items;
      return Ok(Selection(institutions, skipped));
  }
}
