/**
 * `rednotebook/backup.py`: when a backup of the journal is due, which files of the
 * data directory go into the archive, what the archive is proposed to be called,
 * and how the configuration records a backup.  The clock, the dialog answers, the
 * chosen archive path, the listing of the data directory and the outcome of writing
 * the zip file are inputs.
 */
module Backup {
  import opened Wrappers
  import opened Paths
  import opened Dates

  const MaxBackupAge: int := 7
  const BackupNow: int := 100
  const AskNextTime: int := 200
  const NeverAskAgain: int := 300

  const LastBackupDateKey: string := "lastBackupDate"
  const LastBackupDirKey: string := "lastBackupDir"

  /** Files whose path holds this text are earlier backups and are never archived. */
  const BackupMarker: string := "RedNotebook-Backup"

  /** `config.read(key, default)`. */
  function Read(config: map<string, string>, key: string, default: string): string {
    if key in config then config[key] else default
  }

  // ---- when a backup is due ----

  /** `_backup_necessary`: due when the stored date cannot be parsed, or when the last
      backup is more than `MaxBackupAge` whole days old.  A missing date reads as today. */
  function BackupNecessary(config: map<string, string>, now: DateTime): bool
    requires ValidDateTime(now)
  {
    match ParseDate(Read(config, LastBackupDateKey, FormatDate(now.date)))
    case None => true
    case Some(last) => AgeInDays(now, last) > MaxBackupAge
  }

  /** An unreadable stored date makes the backup due. */
  lemma UnparsableDateIsDue(config: map<string, string>, now: DateTime)
    requires ValidDateTime(now)
    requires LastBackupDateKey in config && ParseDate(config[LastBackupDateKey]).None?
    ensures BackupNecessary(config, now)
  {
  }

  /** A readable stored date makes the backup due exactly when it is more than seven
      whole days before today: seven days is not due, eight is, a future date never is. */
  lemma DueIffOlderThanMaxAge(config: map<string, string>, now: DateTime, last: Date)
    requires ValidDateTime(now)
    requires LastBackupDateKey in config && ParseDate(config[LastBackupDateKey]) == Some(last)
    ensures BackupNecessary(config, now) <==> Ordinal(now.date) - Ordinal(last) > MaxBackupAge
    ensures Ordinal(now.date) - Ordinal(last) == 7 ==> !BackupNecessary(config, now)
    ensures Ordinal(now.date) - Ordinal(last) == 8 ==> BackupNecessary(config, now)
    ensures Ordinal(now.date) < Ordinal(last) ==> !BackupNecessary(config, now)
  {
  }

  /** A backup recorded on date `recorded` is due at `now` exactly when more than seven
      days have passed since. */
  lemma DueAfterRecordedDate(config: map<string, string>, recorded: Date, now: DateTime)
    requires ValidDateTime(now) && ValidDate(recorded)
    requires LastBackupDateKey in config && config[LastBackupDateKey] == FormatDate(recorded)
    ensures BackupNecessary(config, now) <==> Ordinal(now.date) - Ordinal(recorded) > MaxBackupAge
  {
    ParseFormat(recorded);
  }

  /** Without a stored date the default is today, so no backup is due. */
  lemma NoRecordedDateNotDue(config: map<string, string>, now: DateTime)
    requires ValidDateTime(now)
    requires LastBackupDateKey !in config
    ensures !BackupNecessary(config, now)
  {
    ParseFormat(now.date);
  }

  // ---- the archive ----

  /** An archive entry: the name inside the zip file and the file it is read from. */
  datatype Entry = Entry(arcname: string, source: Path)

  /** The archive's entries: each file under its base name. */
  function ArchiveEntries(files: seq<Path>): (entries: seq<Entry>)
    ensures |entries| == |files|
    ensures forall i | 0 <= i < |files| :: entries[i].source == files[i] && entries[i].arcname == Name(files[i])
  {
    seq(|files|, i requires 0 <= i < |files| => Entry(Name(files[i]), files[i]))
  }

  /** The filter of `backup`: the path's string neither ends with `~` nor holds the marker. */
  predicate IsArchived(file: Path) {
    !EndsWith(Str(file), "~") && !Contains(BackupMarker, Str(file))
  }

  /** The elements of `xs` that `keep` accepts, in their order. */
  function Filter(xs: seq<Path>, keep: Path -> bool): seq<Path> {
    if xs == [] then []
    else (if keep(xs[0]) then [xs[0]] else []) + Filter(xs[1..], keep)
  }

  /** The files of a listing that the archive takes, in listing order. */
  function ArchiveSelection(listing: seq<Path>): seq<Path> {
    Filter(listing, IsArchived)
  }

  /** `a` is `b` with some elements left out. */
  predicate IsSubsequence<T(==)>(a: seq<T>, b: seq<T>)
    decreases |b|
  {
    if a == [] then true
    else if b == [] then false
    else (a[0] == b[0] && IsSubsequence(a[1..], b[1..])) || IsSubsequence(a, b[1..])
  }

  lemma {:induction false} FilterAppend(xs: seq<Path>, x: Path, keep: Path -> bool)
    ensures Filter(xs + [x], keep) == Filter(xs, keep) + (if keep(x) then [x] else [])
    decreases |xs|
  {
    var last := if keep(x) then [x] else [];
    if xs == [] {
      assert xs + [x] == [x] && [x][1..] == [];
      assert Filter([x], keep) == last + Filter([], keep);
    } else {
      var ys := xs + [x];
      var head := if keep(xs[0]) then [xs[0]] else [];
      assert ys[0] == xs[0] && ys[1..] == xs[1..] + [x];
      assert Filter(ys, keep) == head + Filter(xs[1..] + [x], keep);
      FilterAppend(xs[1..], x, keep);
      assert head + (Filter(xs[1..], keep) + last) == (head + Filter(xs[1..], keep)) + last;
    }
  }

  lemma {:induction false} FilterMembers(xs: seq<Path>, keep: Path -> bool)
    ensures forall y :: y in Filter(xs, keep) <==> y in xs && keep(y)
    decreases |xs|
  {
    if xs != [] {
      FilterMembers(xs[1..], keep);
      assert xs == [xs[0]] + xs[1..];
    }
  }

  lemma {:induction false} FilterKeepsOrder(xs: seq<Path>, keep: Path -> bool)
    ensures IsSubsequence(Filter(xs, keep), xs)
    decreases |xs|
  {
    if xs != [] {
      FilterKeepsOrder(xs[1..], keep);
      var rest := Filter(xs[1..], keep);
      if keep(xs[0]) {
        assert ([xs[0]] + rest)[1..] == rest;
      } else {
        assert Filter(xs, keep) == rest;
        if rest != [] {
          assert IsSubsequence(rest, xs[1..]);
        }
      }
    }
  }

  lemma {:induction false} FilterIdempotent(xs: seq<Path>, keep: Path -> bool)
    ensures Filter(Filter(xs, keep), keep) == Filter(xs, keep)
    decreases |xs|
  {
    if xs != [] {
      FilterIdempotent(xs[1..], keep);
      var rest := Filter(xs[1..], keep);
      if keep(xs[0]) {
        assert ([xs[0]] + rest)[1..] == rest;
      } else {
        assert Filter(xs, keep) == rest;
      }
    }
  }

  /** One more listed file extends the selection by itself exactly when it passes the filter. */
  lemma ArchiveSelectionAppend(listing: seq<Path>, file: Path)
    ensures ArchiveSelection(listing + [file]) ==
            ArchiveSelection(listing) + (if IsArchived(file) then [file] else [])
  {
    FilterAppend(listing, file, IsArchived);
  }

  /** A file is archived exactly when it is listed and passes the filter. */
  lemma ArchiveSelectionMembers(listing: seq<Path>)
    ensures forall f :: f in ArchiveSelection(listing) <==> f in listing && IsArchived(f)
  {
    FilterMembers(listing, IsArchived);
  }

  /** The selection keeps the order of the listing. */
  lemma ArchiveSelectionKeepsOrder(listing: seq<Path>)
    ensures IsSubsequence(ArchiveSelection(listing), listing)
  {
    FilterKeepsOrder(listing, IsArchived);
  }

  /** Filtering twice changes nothing. */
  lemma ArchiveSelectionIdempotent(listing: seq<Path>)
    ensures ArchiveSelection(ArchiveSelection(listing)) == ArchiveSelection(listing)
  {
    FilterIdempotent(listing, IsArchived);
  }

  /** When the data directory's own path holds the marker, every file under it holds it
      too, so nothing is archived. */
  lemma {:induction false} MarkedDataDirArchivesNothing(dataDir: Path, listing: seq<Path>)
    requires Contains(BackupMarker, Str(dataDir))
    requires forall f | f in listing :: IsUnder(dataDir, f)
    ensures ArchiveSelection(listing) == []
    decreases |listing|
  {
    if listing != [] {
      var f := listing[0];
      if dataDir.drive == "" && !dataDir.rooted && dataDir.parts == [] {
        assert false;
      }
      StrPrefix(dataDir, f);
      ContainsInExtension(BackupMarker, Str(dataDir), Str(f));
      MarkedDataDirArchivesNothing(dataDir, listing[1..]);
    }
  }

  /** A data directory holding `a.txt`, `b.txt~` and an earlier backup archive gives an
      archive of `a.txt` alone. */
  lemma SelectionExample()
    ensures var dataDir := Path("", true, ["d"]);
      var a, b, c := Join(dataDir, "a.txt"), Join(dataDir, "b.txt~"), Join(dataDir, "RedNotebook-Backup-2020-01-01.zip");
      ArchiveSelection([a, b, c]) == [a]
  {
    var dataDir := Path("", true, ["d"]);
    var a, b, c := Join(dataDir, "a.txt"), Join(dataDir, "b.txt~"), Join(dataDir, "RedNotebook-Backup-2020-01-01.zip");
    assert a.parts == ["d", "a.txt"] && a.parts[..1] == ["d"];
    assert JoinParts(["d"]) == "d";
    assert JoinParts(a.parts) == "d/a.txt";
    assert Str(a) == "/d/a.txt";
    assert IsArchived(a);
    StrEndsWithName(dataDir, "b.txt~");
    assert !IsArchived(b);
    var n := "RedNotebook-Backup-2020-01-01.zip";
    assert n[..|BackupMarker|] == BackupMarker;
    StrEndsWithName(dataDir, n);
    ContainsInSuffix(BackupMarker, n, Str(c));
    assert !IsArchived(c);
    assert [a, b, c][1..] == [b, c] && [b, c][1..] == [c] && [c][1..] == [];
    assert Filter([c], IsArchived) == Filter([], IsArchived) == [];
    assert Filter([b, c], IsArchived) == Filter([c], IsArchived);
    assert Filter([a, b, c], IsArchived) == [a] + Filter([b, c], IsArchived);
  }

  /** The file-selection loop of `backup`. */
  method SelectArchiveFiles(listing: seq<Path>) returns (files: seq<Path>)
    ensures files == ArchiveSelection(listing)
  {
    files := [];
    for i := 0 to |listing|
      invariant files == ArchiveSelection(listing[..i])
    {
      var file := listing[i];
      ArchiveSelectionAppend(listing[..i], file);
      TakeOneMore(listing, i);
      if IsArchived(file) {
        files := files + [file];
      }
    }
    assert listing[..|listing|] == listing;
  }

  // ---- the proposed archive name ----

  /** The file name `_get_backup_file` proposes: the marker, `-title` unless the title is
      `data`, and today's date. */
  function ProposedBackupFileName(title: string, today: Date): string
    requires ValidDate(today)
  {
    BackupMarker + (if title == "data" then "" else "-" + title) + "-" + FormatDate(today) + ".zip"
  }

  /** The proposed name starts with the marker, names the title, ends with `.zip`, and
      the ten characters before the extension parse back to today's date. */
  lemma ProposedNameParts(title: string, today: Date)
    requires ValidDate(today)
    ensures var n := ProposedBackupFileName(title, today);
      && |n| == |BackupMarker| + (if title == "data" then 0 else |title| + 1) + 15
      && n[..|BackupMarker|] == BackupMarker
      && (title != "data" ==> n[|BackupMarker|..|n| - 15] == "-" + title)
      && n[|n| - 15] == '-'
      && n[|n| - 4..] == ".zip"
      && ParseDate(n[|n| - 14..|n| - 4]) == Some(today)
  {
    var n := ProposedBackupFileName(title, today);
    var middle := if title == "data" then "" else "-" + title;
    assert n == BackupMarker + middle + "-" + FormatDate(today) + ".zip";
    assert n[|n| - 14..|n| - 4] == FormatDate(today);
    ParseFormat(today);
  }

  /** An archive saved under its proposed name inside the data directory is left out of
      every later backup. */
  lemma ProposedArchiveNotRearchived(dir: Path, title: string, today: Date)
    requires ValidDate(today)
    ensures !IsArchived(Join(dir, ProposedBackupFileName(title, today)))
  {
    var n := ProposedBackupFileName(title, today);
    assert n[..|BackupMarker|] == BackupMarker;
    assert Contains(BackupMarker, n);
    StrEndsWithName(dir, n);
    ContainsInSuffix(BackupMarker, n, Str(Join(dir, n)));
  }

  /** The folder the file chooser opens in: the last backup's folder, else the home folder. */
  function ProposedDirectory(config: map<string, string>, home: Path): (folder: string)
    ensures LastBackupDirKey in config ==> folder == config[LastBackupDirKey]
    ensures LastBackupDirKey !in config ==> folder == Str(home)
  {
    Read(config, LastBackupDirKey, Str(home))
  }

  // ---- the configuration after a backup ----

  /** The configuration after `backup`: with a chosen path and a written archive, today's
      date and the archive's folder are recorded; otherwise nothing changes. */
  function ConfigAfterBackup(config: map<string, string>, now: DateTime, chosen: Option<Path>, written: bool)
    : (after: map<string, string>)
    requires ValidDateTime(now)
    ensures chosen.Some? && written ==>
              after.Keys == config.Keys + {LastBackupDateKey, LastBackupDirKey}
              && after[LastBackupDateKey] == FormatDate(now.date)
              && after[LastBackupDirKey] == Str(Parent(chosen.value))
              && forall k | k in config && k != LastBackupDateKey && k != LastBackupDirKey :: after[k] == config[k]
    ensures !(chosen.Some? && written) ==> after == config
  {
    if chosen.Some? && written then
      config[LastBackupDateKey := FormatDate(now.date)][LastBackupDirKey := Str(Parent(chosen.value))]
    else config
  }

  /** Right after a successful backup no backup is due, the next one falls due after eight
      days, and the file chooser proposes the folder the archive went to. */
  lemma AfterSuccessfulBackup(config: map<string, string>, now: DateTime, target: Path, later: DateTime, home: Path)
    requires ValidDateTime(now) && ValidDateTime(later)
    ensures var after := ConfigAfterBackup(config, now, Some(target), true);
      && !BackupNecessary(after, now)
      && (BackupNecessary(after, later) <==> Ordinal(later.date) - Ordinal(now.date) > MaxBackupAge)
      && ProposedDirectory(after, home) == Str(Parent(target))
  {
    var after := ConfigAfterBackup(config, now, Some(target), true);
    DueAfterRecordedDate(after, now.date, now);
    DueAfterRecordedDate(after, now.date, later);
  }

  /** The configuration after answering "never ask again": the date of `datetime.max`. */
  function ConfigAfterNeverAsk(config: map<string, string>): (after: map<string, string>)
    ensures after.Keys == config.Keys + {LastBackupDateKey}
    ensures after[LastBackupDateKey] == "9999-12-31"
    ensures forall k | k in config && k != LastBackupDateKey :: k in after && after[k] == config[k]
  {
    config[LastBackupDateKey := FormatDate(MaxDate)]
  }

  /** After "never ask again" no backup is ever due: every moment is before `datetime.max`,
      so the age is never positive. */
  lemma NeverAskAgainNeverDue(config: map<string, string>, now: DateTime)
    requires ValidDateTime(now)
    ensures !BackupNecessary(ConfigAfterNeverAsk(config), now)
  {
    DueAfterRecordedDate(ConfigAfterNeverAsk(config), MaxDate, now);
    OrdinalRange(now.date);
  }

  /** What `backup` does outside the configuration, in order: the file chooser opened on
      a folder with a proposed name, the journal saved, the archive written. */
  datatype Effect =
    | OfferedChooser(folder: string, name: string)
    | SavedJournal
    | WroteArchive(target: Path, entries: seq<Entry>)

  /** The effects of `backup`: the chooser is offered the proposed folder and name; nothing
      more without a chosen path; otherwise the journal is saved, then the archive is
      written when writing succeeds. */
  function BackupEffects(config: map<string, string>, home: Path, title: string, today: Date,
                         chosen: Option<Path>, listing: seq<Path>, written: bool): seq<Effect>
    requires ValidDate(today)
  {
    var offer := OfferedChooser(ProposedDirectory(config, home), ProposedBackupFileName(title, today));
    if chosen.None? then [offer]
    else if !written then [offer, SavedJournal]
    else [offer, SavedJournal, WroteArchive(chosen.value, ArchiveEntries(ArchiveSelection(listing)))]
  }

  /**
   * An `Archiver` over a journal: its configuration and its title, and the effects of its
   * backups so far.
   */
  class Archiver {
    var config: map<string, string>
    var effects: seq<Effect>
    const title: string

    constructor (config: map<string, string>, title: string)
      ensures this.config == config && effects == [] && this.title == title
    {
      this.config := config;
      effects := [];
      this.title := title;
    }

    /**
     * `backup`: offer the file chooser the proposed folder (`home` when none is stored)
     * and name; return at once when no path was chosen; otherwise save the journal,
     * select the files of `listing` (what `data_dir.rglob('*')` yields), write the
     * archive, and record the date and the archive's folder.  `written` is false when
     * writing the zip file raises; the exception then leaves the configuration alone.
     */
    method Backup(now: DateTime, home: Path, chosen: Option<Path>, listing: seq<Path>, written: bool)
      returns (done: bool)
      requires ValidDateTime(now)
      modifies this
      ensures done == (chosen.Some? && written)
      ensures config == ConfigAfterBackup(old(config), now, chosen, written)
      ensures effects == old(effects) + BackupEffects(old(config), home, title, now.date, chosen, listing, written)
    {
      var offer := OfferedChooser(ProposedDirectory(config, home), ProposedBackupFileName(title, now.date));
      if chosen.None? {
        effects := effects + [offer];
        return false;
      }
      var target := chosen.value;
      var files := SelectArchiveFiles(listing);
      if !written {
        effects := effects + [offer, SavedJournal];
        return false;
      }
      effects := effects + [offer, SavedJournal, WroteArchive(target, ArchiveEntries(files))];
      config := config[LastBackupDateKey := FormatDate(now.date)];
      config := config[LastBackupDirKey := Str(Parent(target))];
      done := true;
    }

    /**
     * `check_last_backup_date`: nothing when no backup is due; otherwise act on the
     * dialog's answer: back up now (at `backupTime`), ask at the next start, or never ask
     * again.  Any other answer (the dialog closed) changes nothing.
     */
    method CheckLastBackupDate(now: DateTime, answer: int, home: Path, chosen: Option<Path>, listing: seq<Path>,
                               backupTime: DateTime, written: bool)
      requires ValidDateTime(now) && ValidDateTime(backupTime)
      modifies this
      ensures var due := BackupNecessary(old(config), now);
        && (due && answer == BackupNow ==>
              config == ConfigAfterBackup(old(config), backupTime, chosen, written)
              && effects == old(effects) + BackupEffects(old(config), home, title, backupTime.date, chosen, listing, written))
        && (due && answer == NeverAskAgain ==> config == ConfigAfterNeverAsk(old(config)) && effects == old(effects))
        && (!due || (answer != BackupNow && answer != NeverAskAgain) ==> config == old(config) && effects == old(effects))
    {
      if !BackupNecessary(config, now) {
        return;
      }
      if answer == BackupNow {
        var _ := Backup(backupTime, home, chosen, listing, written);
      } else if answer == AskNextTime {
      } else if answer == NeverAskAgain {
        config := config[LastBackupDateKey := FormatDate(MaxDate)];
      }
    }
  }
}
