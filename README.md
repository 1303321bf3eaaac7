# RedNotebook backup prompter and storage layout, in Dafny

This project models two support files of the RedNotebook journal:

- `rednotebook/backup.py`: the `Archiver` decides whether a backup is due from the
  `lastBackupDate` stored in the configuration, acts on the three answers of the backup
  prompt, selects the files of the data directory that go into the zip archive,
  proposes the archive's file name, and records `lastBackupDate` and `lastBackupDir`
  after a backup.
- `rednotebook/util/filesystem.py`: `Filenames` chooses the journal user directory
  (custom setting, portable mode or `~/.rednotebook`), derives the template, temp,
  data, config and log paths from it, and creates the layout on disk with
  `make_directories` and `make_files`.  The same file holds the helpers
  `make_directory`, `make_file` and `make_file_with_dir` (the last has no caller in
  this file or in `backup.py`), and `is_valid_journal_path`, `get_relative_path` and
  `get_journal_title`.

Modules (one file each):

- `Wrappers` (`wrappers.dfy`): `Option`.
- `Paths` (`paths.dfy`): `pathlib` paths as values (drive, root, components), `str()`
  of a path, and substring facts used by the backup filter.
- `Dates` (`dates.dfy`): the proleptic Gregorian ordinal of `datetime`,
  `(now - last).days`, and `strftime`/`strptime` with `%Y-%m-%d`, following the
  regular expression `strptime` builds for that format.
- `Filesystem` (`filesystem.dfy`): the filesystem as a `Disk` object (a set of
  directories and a map from files to contents) whose methods mirror the helpers,
  the `Filenames` class, and the pure path functions.
- `Backup` (`backup.dfy`): the staleness test, the file selection, the proposed name,
  the configuration updates, and the `Archiver` class whose methods change the
  configuration map and record the journal save and archive write as effects.

The clock (`datetime.now()`, `date.today()`), the prompt's answer, the path picked in
the file chooser, the listing `data_dir.rglob('*')` yields, whether the zip file could
be written, the resolved environment paths and the configuration's `userDir` and
`portable` values are parameters.

The backup filter tests the whole path string (`backup.py:82-83`), not only the file
name, so a data directory whose own path contains `RedNotebook-Backup` archives nothing
(`Backup.MarkedDataDirArchivesNothing`).

`if custom:` and `is_valid_journal_path` are modelled as written and as intended; see
"## Findings".  `Filenames` takes the outcome of the `if custom:` test as the parameter
`customCounts`: `true` is the code as written (`Filesystem.UserDirAsWritten`),
`setting != ""` the intended choice (`Filesystem.UserDir`).

## Model

| member | source | states |
|---|---|---|
| `Dates.AgeInDays` | rednotebook/backup.py:100 | `(now - last).days` is the difference of the two dates' ordinals; the time of day never changes it |
| `Dates.FormatDate` | rednotebook/backup.py:89 | `%Y-%m-%d` gives ten characters: digits with `-` at positions 4 and 7 |
| `Dates.ParseDate` | rednotebook/backup.py:96 | `strptime` with `%Y-%m-%d` only yields dates that exist, with a year from 1 to 9999 |
| `Dates.ParseFormat` | rednotebook/backup.py:94-96 | formatting a valid date and parsing it back gives the same date |
| `Dates.ParseDateAccepts` | rednotebook/backup.py:96 | unpadded and space-padded fields parse, and so does 29 February of a leap year |
| `Dates.ParseDateRejects` | rednotebook/backup.py:96-99 | 29 February of a common year, year 0 and trailing text do not parse |
| `Dates.OrdinalRange` | rednotebook/backup.py:64 | every valid date lies between 0001-01-01 and `datetime.max` |
| `Backup.BackupNecessary` | rednotebook/backup.py:92-102 | the definition of `_backup_necessary` (the stored date, today when absent, parsed; due when unparsable or older than 7 days); its meaning is proved by the four lemmas below |
| `Backup.UnparsableDateIsDue` | rednotebook/backup.py:95-99 | a stored date that does not parse makes the backup due |
| `Backup.DueIffOlderThanMaxAge` | rednotebook/backup.py:100-102 | a parsed date makes the backup due iff its age in days exceeds 7; 7 is not due, 8 is, a future date is not |
| `Backup.DueAfterRecordedDate` | rednotebook/backup.py:94-102 | a date written with `%Y-%m-%d` makes the backup due iff more than 7 days have passed since it |
| `Backup.NoRecordedDateNotDue` | rednotebook/backup.py:93-94 | with no stored date the default is today, so no backup is due |
| `Backup.IsArchived` | rednotebook/backup.py:82-83 | the definition of the filter on `str(file)`: no trailing `~` and no `RedNotebook-Backup` inside |
| `Backup.ArchiveSelection` | rednotebook/backup.py:80-84 | the definition of the selection: the listed files that pass `IsArchived`, in order; the lemmas below state its members, order and idempotence |
| `Backup.ArchiveEntries` | rednotebook/backup.py:67-71 | one entry per selected file, in order, stored under the file's base name `file.name` and read from the file itself |
| `Backup.ArchiveSelectionMembers` | rednotebook/backup.py:81-84 | a file is archived iff it is listed and its path string neither ends with `~` nor contains `RedNotebook-Backup` |
| `Backup.ArchiveSelectionKeepsOrder` | rednotebook/backup.py:81-84 | the archived files keep the order of the listing |
| `Backup.ArchiveSelectionIdempotent` | rednotebook/backup.py:83 | filtering the selection again changes nothing |
| `Backup.MarkedDataDirArchivesNothing` | rednotebook/backup.py:79-84 | when the data directory's path contains the marker, no file under it is archived |
| `Backup.SelectionExample` | rednotebook/backup.py:80-84 | of `a.txt`, `b.txt~` and an earlier backup zip, only `a.txt` is archived |
| `Backup.SelectArchiveFiles` | rednotebook/backup.py:80-84 | the loop appends exactly the listed files that pass the filter, in order |
| `Backup.ProposedBackupFileName` | rednotebook/backup.py:104-110 | the definition of the proposed name; `Backup.ProposedNameParts` states its parts |
| `Backup.ProposedNameParts` | rednotebook/backup.py:105-110 | the proposed name is the marker, `-title` unless the title is `data`, `-`, today's date (which parses back) and `.zip` |
| `Backup.ProposedArchiveNotRearchived` | rednotebook/backup.py:110 | an archive saved under the proposed name is excluded from every later backup |
| `Backup.ProposedDirectory` | rednotebook/backup.py:111 | the chooser opens in the stored `lastBackupDir` when there is one, otherwise in the home folder |
| `Backup.ConfigAfterBackup` | rednotebook/backup.py:89-90 | after a written archive, `lastBackupDate` is today and `lastBackupDir` the archive's folder, other keys unchanged; otherwise the configuration is unchanged |
| `Backup.AfterSuccessfulBackup` | rednotebook/backup.py:89-111 | right after a backup none is due, the next falls due after more than 7 days, and the chooser opens in the archive's folder |
| `Backup.ConfigAfterNeverAsk` | rednotebook/backup.py:63-64 | "never ask again" stores `9999-12-31` under `lastBackupDate`, adds no other key and keeps every other value |
| `Backup.NeverAskAgainNeverDue` | rednotebook/backup.py:64 | after "never ask again" no backup is due at any moment |
| `Backup.BackupEffects` | rednotebook/backup.py:73-116 | the definition of what `backup` does outside the configuration, in order: the chooser offered the proposed folder and name; then, with a chosen path, the journal saved and, when writing succeeds, the archive of the selected files |
| `Backup.Archiver.constructor` | rednotebook/backup.py:35-36 | the archiver starts from the journal's configuration and title with no effects |
| `Backup.Archiver.Backup` | rednotebook/backup.py:66-90 | the chooser is first offered the proposed folder and name (from the title and today's date); no chosen path: nothing else happens; otherwise the journal is saved, then the selected files are archived under their base names and the configuration is updated only if the archive was written |
| `Backup.Archiver.CheckLastBackupDate` | rednotebook/backup.py:38-64 | not due: nothing changes; due: back up now (all the effects of `backup`), ask next time (no change), or store `datetime.max`'s date; any other answer changes nothing |
| `Filesystem.Disk.MakeDirectory` | rednotebook/util/filesystem.py:150-152 | an existing directory changes nothing; otherwise the directory and its missing ancestors are created, no file changes, and a file in the way fails without change |
| `Filesystem.Disk.MakeDirectories` | rednotebook/util/filesystem.py:155-157 | all directories and their ancestors exist iff no file is in the way of any; the first blocked one stops the loop |
| `Filesystem.Disk.MakeFile` | rednotebook/util/filesystem.py:160-162 | an existing file is never overwritten; an absent file is written when its folder exists, otherwise nothing changes |
| `Filesystem.MakeFileIn` | rednotebook/util/filesystem.py:160-162 | the definition of one `make_file` on values: the file is added only when it is absent and can be created |
| `Filesystem.FilesMade` | rednotebook/util/filesystem.py:165-167 | the definition of `make_files` on values, as `MakeFileIn` on each pair in turn; `Filesystem.FilesMadeKeepsAndAdds` and `Filesystem.FilesMadeCovers` state what it keeps and adds |
| `Filesystem.Disk.MakeFiles` | rednotebook/util/filesystem.py:165-167 | the files are those of `make_file` applied to each pair in turn; directories are unchanged |
| `Filesystem.Disk.MakeFileWithDir` | rednotebook/util/filesystem.py:170-172 | the parent directory is made first; the file is written only once it exists |
| `Filesystem.FilesMadeKeepsAndAdds` | rednotebook/util/filesystem.py:160-167 | `make_files` keeps every existing file and its content, and each new file comes from some pair |
| `Filesystem.FilesMadeCovers` | rednotebook/util/filesystem.py:165-167 | every pair's path that existed or could be created is a file afterwards, with the first such pair's content |
| `Filesystem.DirHasLineage` | rednotebook/util/filesystem.py:150-152 | an existing directory has all its ancestors and no file is in its way, so `make_directory` is idempotent |
| `Filesystem.AddLineageConsistent` | rednotebook/util/filesystem.py:152 | creating a directory with its parents keeps the tree consistent and makes the directory exist |
| `Filesystem.LineageOfAllCovers` | rednotebook/util/filesystem.py:155-157 | after `make_directories` every requested path is a directory |
| `Filesystem.UserPath` | rednotebook/util/filesystem.py:108-122 | each derived path is a direct child of `journal_user_dir` named `templates`, `tmp`, `data`, `configuration.cfg` or `rednotebook.log` |
| `Filesystem.UserPathInjective` | rednotebook/util/filesystem.py:109-118 | the five derived paths are pairwise distinct and determine the user directory |
| `Filesystem.ChooseUserDir` | rednotebook/util/filesystem.py:90-103 | the definition of the three-way choice of `get_user_dir`, given the outcome of the `if custom:` test |
| `Filesystem.UserDir` | rednotebook/util/filesystem.py:90-103 | the intended choice: the custom path counts only when the setting is not empty; `Filesystem.UserDirChoice` states the outcome of each case |
| `Filesystem.UserDirAsWritten` | rednotebook/util/filesystem.py:90-96 | as written, the resolved custom path is always the user directory |
| `Filesystem.UnsetUserDirAsWritten` | rednotebook/util/filesystem.py:91-101 | with `userDir` unset, the code as written uses the current directory where `~/.rednotebook` is intended |
| `Filesystem.UserDirChoice` | rednotebook/util/filesystem.py:90-103 | a set `userDir` wins; otherwise portable mode gives `app_dir/user`, and the default is `home/.rednotebook` |
| `Filesystem.JournalTitle` | rednotebook/util/filesystem.py:187-194 | the title is never empty, and it is `/` exactly for an anchor |
| `Filesystem.JournalTitleOfChild` | rednotebook/util/filesystem.py:187-194 | a directory's title is the name it has in its parent |
| `Filesystem.GetRelativePath` | rednotebook/util/filesystem.py:175-184 | different drives give `to_dir`; otherwise a result exists iff `to_dir` is an ancestor of `from_dir`, and `to_dir` joined with it is `from_dir` |
| `Filesystem.Filenames.constructor` | rednotebook/util/filesystem.py:74-88 | the attributes: environment paths, `portable`, the user directory chosen as `get_user_dir` does (the custom path when the `if custom:` test passes, else `app_dir/user` in portable mode, else `home/.rednotebook`), `data_dir` as the default data dir, last picture and file dirs as home, and the forbidden dirs |
| `Filesystem.Disk.MakeLayout` | rednotebook/util/filesystem.py:81-83 | `LayoutMade`: the four directories are made iff no file is in the way of any; on success the directories are exactly the old ones plus the four lineages, the files are `make_files` of the empty config and log files (each exists unless a directory occupies it, a new one is empty, no existing file changes); on failure the files are unchanged and only the directories before the blocked one were made; an existing layout is left exactly as it was |
| `Filesystem.Filenames.Create` | rednotebook/util/filesystem.py:66-88 | the disk changes as `MakeLayout` promises (`LayoutMade`, with success meaning a result); construction succeeds iff no file is in the way of the four directories; on success the object holds the attributes of `__init__` and the disk is exactly as `make_directories` then `make_files` leave it (new config and log files empty, no file overwritten); on failure only the directories before the blocked one were made; an existing layout is left unchanged |
| `Filesystem.LayoutFilesMade` | rednotebook/util/filesystem.py:83 | once the user directory exists, config and log files exist iff no directory occupies their paths, and existing files are kept |
| `Filesystem.LayoutPresentLineage` | rednotebook/util/filesystem.py:81-82 | when the layout exists, making its directories again creates nothing and cannot fail |
| `Filesystem.Filenames.IsValidJournalPathAsWritten` | rednotebook/util/filesystem.py:105-106 | as written, the result equals `path.is_dir()` |
| `Filesystem.Filenames.IsValidJournalPath` | rednotebook/util/filesystem.py:105-106 | as intended, an existing directory other than the home and journal user directories |
| `Filesystem.ForbiddenDirsAcceptedAsWritten` | rednotebook/util/filesystem.py:88-106 | as written, the home and journal user directories are accepted; as intended, both are rejected |

## Findings

| source | as written | input that shows it | evidently intended | confidence | as-written member | corrected member |
|---|---|---|---|---|---|---|
| rednotebook/util/filesystem.py:93 | `if custom:` tests a `Path`, which is always truthy, so the portable and home branches never run | `userDir` unset (read as `''`): `Path('')` is `.`, so the journal goes to the current directory | use the custom directory only when the setting is non-empty | high, not executed | `Filesystem.UnsetUserDirAsWritten` | `Filesystem.UserDirChoice` |
| rednotebook/util/filesystem.py:106 | `path.is_absolute() not in self.forbidden_dirs` compares a bool with paths, so it is always true | `path` equal to the home directory, which exists | reject the home and journal user directories | high, not executed | `Filesystem.ForbiddenDirsAcceptedAsWritten` | `Filesystem.Filenames.IsValidJournalPath` |

`Filenames.Create` and the `Filenames` constructor take the user-directory test as a
parameter, so they cover both the code as written and the intended choice.

## Left out

- Backup.Archiver: holds the journal's title and configuration by value, copied at construction; the source reads `journal.title` and `journal.config` on every call, so a title or configuration changed elsewhere between backups is not modelled.
- Filesystem.Disk.MakeFile: `write_file` asserts that the path is absolute; the model makes that a precondition for an absent file, so the `AssertionError` for an absent relative path is excluded rather than modelled (every path `Filenames` passes is absolute).
- Filesystem.Disk.MakeFiles: the same precondition for each pair, for the same reason.
- Filesystem.Disk.MakeFileWithDir: the same precondition, for the same reason.
- The GTK message dialog and file chooser: the answer and the chosen path are parameters; opening the chooser on the proposed folder and name is recorded as the effect `OfferedChooser`, and the file-type filter is not modelled.
- `date.today()` in the proposed name and `datetime.now()` in the recorded date are read from the same moment `now`.
- Writing and compressing the zip file: the archive is the list of (entry name, source path) pairs, and whether writing succeeds is a parameter. Two files with the same base name give two entries of the same name; what the zip file then holds is not modelled.
- `journal.save_to_disk()`: recorded as the effect `SavedJournal`, not modelled further.
- `read_file` and the encoding done by `codecs`: file contents are strings; `write_file` either stores the content or leaves the state unchanged, as when it swallows an `OSError`.
- Failures of `mkdir` other than a file in the way (permissions, a full disk) and failures of `write_file` other than a missing folder or a directory in the way.
- `Path.resolve()`, `Path.home()`, `sys._MEIPASS`, `sys.prefix` and the module-level platform, locale and encoding detection: the resolved paths are the `Environment` record and a parameter for the resolved custom setting. `forbidden_dirs` uses the unresolved home directory; the model takes it to equal the resolved one.
- The `globals()` scan of `Filenames.__init__`: replaced by the fixed `Environment` record of the six `*_dir` paths.
- The configuration store: a map from strings to strings; `userDir` and `portable` arrive already read, an unset `userDir` as the empty string.
- `datetime.now()` and `date.today()`: the current moment and date are parameters.
- `data_dir.rglob('*')`: its listing, in its order, is a parameter.
- Windows paths: the separator is `/`, `is_absolute()` only asks for a root, `relative_to` compares components case-sensitively, and `str.upper()` is modelled for ASCII letters only.
- `strptime` accepts any Unicode decimal digit for `\d`; the model accepts ASCII digits only.
- `strftime('%Y')` leaves years below 1000 unpadded on glibc; the model always pads to four digits.
- Logging, `get_platform_info`, `system_call`, `get_peak_memory_in_kb`, `has_system_tray` and `main_is_frozen`: platform queries, process spawning and OS I/O.
