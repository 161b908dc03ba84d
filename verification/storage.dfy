/**
 The files the application keeps, as an abstract disk keyed by path: the
 per-user profile index (`profiles/<user>.xlsx`, one "Profile Name" column)
 and the per-(user, profile) record tables. A spreadsheet is modelled as the
 table `pandas.read_excel` would return for it.
 */
module Storage {

  /** One spreadsheet row: column name to cell text; a column without an entry
      is an empty (NaN) cell. */
  type Row = map<string, string>

  /** A spreadsheet: its column headers in order and its rows in order. */
  datatype Table = Table(columns: seq<string>, rows: seq<Row>)

  /** Everything on disk the core reads or writes. */
  datatype Disk = Disk(indexes: map<string, seq<string>>, tables: map<string, Table>)

  /** `os.path.join('profiles', f"{username}.xlsx")`. The username can be
      read back from the path, so no two users share an index file. */
  function IndexPath(user: string): (p: string)
    ensures |p| == |user| + 14 && p[9..|p| - 5] == user
  {
    var p := "profiles/" + user + ".xlsx";
    assert p[9..|p| - 5] == user;
    p
  }

  /** Distinct users have distinct index files. */
  lemma IndexPathInjective(a: string, b: string)
    requires IndexPath(a) == IndexPath(b)
    ensures a == b
  {
  }

  /** `os.path.join('record', 'direct_base_' + username, f"{username}_{profile}_data.xlsx")`:
      where records are saved and what the download button offers. */
  function RecordPath(user: string, profile: string): string
  {
    "record/direct_base_" + user + "/" + user + "_" + profile + "_data.xlsx"
  }

  /** `os.path.join('record', f"{username}_{profile}_data.xlsx")`: the file the
      price total reads. */
  function TotalPathAsWritten(user: string, profile: string): string
  {
    "record/" + user + "_" + profile + "_data.xlsx"
  }

  /** The price total and the record saver never use the same file for the
      same user and profile. */
  lemma TotalPathDiffers(user: string, profile: string)
    ensures TotalPathAsWritten(user, profile) != RecordPath(user, profile)
  {
    assert |RecordPath(user, profile)| == |TotalPathAsWritten(user, profile)| + 13 + |user|;
  }
}
