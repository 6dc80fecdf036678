# devcore in Dafny

devcore is a command-line helper for developers. It installs tools and servers, keeps named
contexts for Docker Compose projects and Jenkins instances, and opens folders. This project
models the deterministic logic inside its I/O as pure functions over explicit state, and
proves properties of them. It covers five areas.

- Archive extraction (`utils.Expand`, `unzip`, `untarGz`):
  - an archive is a given list of entries, and the file system is a map from locations to nodes;
  - `filepath.Join`, `Clean` and `Dir` are modelled lexically on '/'-separated elements;
  - extraction is fail-fast, in archive order;
  - zip entries are confined to the destination.
- The configuration store (`pkg/config`):
  - find-first, append, delete-first and partial update of Docker Compose and Jenkins contexts;
  - the four typed not-found errors;
  - the defaults `Load` fills in.
- The tool and server registries:
  - lookup by name and the GOOS mappings;
  - each install procedure as a fail-fast sequence of abstract steps (download, mkdir, expand,
    rename, chmod, symlink, write, remove);
  - the Tomcat install, with its major-version prefix and existence check.
- The commands (`cmd/*.go`):
  - how the target context is resolved;
  - create, delete, set-current, start and stop as transitions of the configuration;
  - the Jenkins pid state, where -1 means stopped;
  - the `java`, `docker compose`, `helm`, `kubectl` and `open` argument lists and the Jenkins
    environment;
  - resource names, and version defaulting.
- `config restore-default-tools-versions`.

The outside world is a set of parameters:
- the operating system (GOOS), the temporary directory and the home directory;
- what `os.Stat` reports for a path;
- whether each install step, download or started program succeeds;
- the pid a started process gets, and whether `kill` succeeds;
- what reading a file returns.

An operation that starts programs returns the programs it started (`Cli.Outcome`). An install
returns the steps it carried out (`Steps.Trace`). Both also return the error the operation
ends with.

Modules:
- `Wrappers` and `Errors`: Option, Result and the error values.
- `Strings`, `Paths`, `FileSystem` and `Lists`: Go library behaviour the core relies on.
- `Archive`: `pkg/utils/utils.go`.
- `Steps`, `Tools` and `Servers`: `pkg/config/tool.go` and `pkg/config/server.go`.
- `Config`: `pkg/config/config.go`.
- `Cli`, plus one module per command file: `CmdJenkins`, `CmdDockerCompose`, `CmdHelm`,
  `CmdOpen`, `CmdTools`, `CmdServers` and `CmdConfig`.

## Model

| member | source | states |
|---|---|---|
| Archive.Illegal | pkg/utils/utils.go:127-129 | The "Illegal file path" refusal is one of the errors extraction itself returns. |
| Archive.InsideDest | pkg/utils/utils.go:125-127 | The zip guard: the joined path starts with the cleaned destination followed by '/'. A path that passes is longer than the cleaned destination. |
| Archive.Copy | pkg/utils/utils.go:150-156 | Copying an entry rewrites the opened file only. It succeeds exactly when the entry's bytes read completely, and a broken read keeps what was read and reports the reader's error. |
| Archive.ZipEntry | pkg/utils/utils.go:125-156 | A zip entry whose joined path fails the guard is refused before anything is written. A directory entry never fails, because a MkdirAll error is ignored: when that MkdirAll succeeds the location is a directory afterwards, and when it fails nothing changes. Every error is an extraction error. |
| Archive.NameParent | pkg/utils/utils.go:189-191 | The parent of a tar entry name is the text before its last '/', so the name is that parent, then '/', then the rest. |
| Archive.TarEntry | pkg/utils/utils.go:183-209 | One tar entry, with no check of where it lands. Every error it returns is an extraction error. |
| Archive.Step | pkg/utils/utils.go:124-209 | One entry in a given format. The guarded formats refuse every entry outside the destination with the Illegal error and leave the file system unchanged, so a guarded success means the entry was inside. |
| Archive.Process | pkg/utils/utils.go:124-158 | Entries are processed in order. An empty archive changes nothing, and every error is an extraction error. |
| Archive.Extract | pkg/utils/utils.go:117-212 | An archive that cannot be opened writes nothing and reports the reader error. Otherwise the file system is the result of processing the entries, and the first entry error is the result. A zip archive ignores what follows its entries. A tar reader that ends in a header error instead of io.EOF reports that error once every entry succeeded. |
| Archive.ExpandAsWritten | pkg/utils/utils.go:107-115 | A name ending in ".zip" goes to unzip, else one ending in ".tar.gz" goes to the unguarded untarGz. "Unknown archive format" is returned exactly when the name ends in neither, and then nothing is written. |
| Archive.Expand | pkg/utils/utils.go:107-115 | The same dispatch, with the guarded tar extractor. Whatever the entries, nothing outside the cleaned destination changes: this is the containment invariant. |
| Archive.ExpandAgreesInside | pkg/utils/utils.go:107-115 | When every entry passes the zip guard, the corrected Expand and the original are equal. |
| Archive.ProcessGuardedAgrees | pkg/utils/utils.go:175-210 | Guarded and unguarded tar processing coincide on entries that pass the guard. |
| Archive.UnknownFormatIsNotExtractionError | pkg/utils/utils.go:113 | The unknown-format error cannot be confused with an error from extraction. |
| Archive.ProcessSplit | pkg/utils/utils.go:124-158 | Processing a list is processing a prefix and then, only if that succeeded, the rest. |
| Archive.ProcessStopsAtFirstError | pkg/utils/utils.go:124-158 | A failed extraction failed at one entry k. Every entry before k succeeded, and the result is k's step on their file system, so nothing after k ran. |
| Archive.GuardMeansInside | pkg/utils/utils.go:125-129 | The string-prefix guard holds exactly when the joined location lies strictly below the cleaned destination, and that destination is neither "/" nor ".". |
| Archive.ZipRefusesAtRootOrDot | pkg/utils/utils.go:127 | With a destination that cleans to "/" or ".", the first zip entry is refused and nothing is written. |
| Archive.ZipEntryConfined | pkg/utils/utils.go:125-156 | Every change one zip entry makes lies inside the destination. |
| Archive.GuardedTarEntryConfined | pkg/utils/utils.go:183-209 | With the guard added, every change one tar entry makes lies inside the destination. |
| Archive.GuardedParentInside | pkg/utils/utils.go:189-192 | The parent a guarded tar entry creates is the destination or lies inside it. |
| Archive.TarParent | pkg/utils/utils.go:189-192 | The parent made for a tar file entry is the join of the destination and the name's text before its last '/'. Element-wise it is the entry's location, its parent, or one of its children (when the last element is ".."). |
| Archive.ProcessConfined | pkg/utils/utils.go:124-158 | A whole guarded extraction changes nothing outside the destination. |
| Archive.ExtractConfined | pkg/utils/utils.go:117-213 | The same for an archive, including one that cannot be read. |
| Archive.TarEscapesDestination | pkg/utils/utils.go:183-209 | The entry "../evil" extracted as tar into "/out" creates the file "/evil", outside "/out". The guarded extractor refuses that entry. |
| Archive.ExpandAsWrittenEscapes | pkg/utils/utils.go:107-213 | The counterexample through Expand: "x.tar.gz" holding "../evil" writes outside "/out" with no error. The corrected Expand refuses it. |
| Archive.StepKeepsOthers | pkg/utils/utils.go:124-209 | A successful entry leaves every existing node it does not land on unchanged. |
| Archive.StepWritesFile | pkg/utils/utils.go:136-209 | A successful file entry leaves a file holding exactly its bytes. For zip the mode is the entry's own unless the file already existed. For tar it is 0755. |
| Archive.ZipWritesFile | pkg/utils/utils.go:136-156 | The zip case of StepWritesFile, as the exact node written. |
| Archive.TarWritesFile | pkg/utils/utils.go:199-209 | The tar case: a 0755 file with the entry's bytes. |
| Archive.ProcessKeepsOthers | pkg/utils/utils.go:124-158 | A successful extraction never disturbs an existing node that no file entry lands on. |
| Archive.LastWriteWins | pkg/utils/utils.go:124-158 | When several file entries land on one location, the last one's bytes remain. |
| Archive.ProcessAround | pkg/utils/utils.go:124-158 | A successful extraction ran the entries before i, then entry i, then the rest, each successfully. |
| Archive.TarDirectoryCreated | pkg/utils/utils.go:183-187 | A tar directory entry that succeeded is a directory afterwards. |
| Archive.TarDirectoriesCreated | pkg/utils/utils.go:175-212 | After a successful tar extraction every directory entry's location is a directory, whatever the later entries did. |
| Archive.WriteKeepsDirs | pkg/utils/utils.go:140-150 | Opening, chmod-ing and filling a file never removes or replaces a directory. |
| Archive.ZipEntryKeepsDirs | pkg/utils/utils.go:124-156 | No zip entry removes or replaces a directory. |
| Archive.TarEntryKeepsDirs | pkg/utils/utils.go:183-209 | No tar entry removes or replaces a directory. |
| Archive.StepKeepsDirs | pkg/utils/utils.go:124-209 | In every format, one entry keeps every directory a directory. |
| Archive.ProcessKeepsDirs | pkg/utils/utils.go:124-158 | A whole extraction, successful or not, keeps every directory a directory. |
| Archive.ExtractSucceedsIff | pkg/utils/utils.go:117-212 | Extraction succeeds exactly when the archive opens, every entry succeeds, and, for tar, the reader ends with io.EOF. |
| Archive.DirectoryEntryIdempotent | pkg/utils/utils.go:131-187 | Extracting a directory entry twice, by unzip (lines 131-134) or untarGz (lines 183-187), is extracting it once. |
| Cli.CheckArgs | cmd/helm.go:33 | cobra's argument rule: no error exactly when the count is accepted, else the count error naming the rule and the count. |
| Cli.Target | cmd/docker-compose.go:110-117 | The target is the argument when there is one, else the current context when set, else the "no context" error. |
| Cli.ResolveVersion | cmd/tools.go:46-48 | An empty --version means the default version, and any other value is kept. |
| CmdConfig.OverwriteIsUnion | cmd/config.go:35-37 | The restore loop is a map union in which the registry's table wins. |
| CmdConfig.Overwrite | cmd/config.go:35-37 | The restore loop keeps every existing key and makes every tool name a key. |
| CmdConfig.TableKeys | cmd/config.go:35-37 | The table's keys are exactly the tool names. |
| CmdConfig.TableValue | cmd/config.go:35-37 | A name maps to the default version of the last tool so named. |
| CmdConfig.RestoreDefaultToolsVersions | cmd/config.go:31-37 | The map is allocated if nil, every tool name becomes a key, and nothing else in the configuration changes. |
| CmdConfig.RestoreSetsDefaults | cmd/config.go:31-37 | With distinct names, every tool maps to its default version, overwriting user values. Keys that are not tool names keep their values, and no other key appears. |
| CmdConfig.RestoreIdempotent | cmd/config.go:35-37 | Restoring twice is restoring once. |
| CmdConfig.FillAfterRestore | cmd/config.go:35-37 | After a restore, the add-only fill of Load (pkg/config/config.go lines 75-85) has nothing left to add. |
| CmdDockerCompose.Create | cmd/docker-compose.go:41-56 | A taken name is refused first, then a missing compose file. Otherwise the context is appended, becomes current, and is found under its name. |
| CmdDockerCompose.Resolve | cmd/docker-compose.go:110-126 | More than one argument is refused. No argument and no current context gives the "no context" error. Otherwise the result is the lookup of the named or current context. |
| CmdDockerCompose.Delete | cmd/docker-compose.go:109-137 | Only the first context with the resolved name is removed, and the others stay in their order. So that name's count drops by one and every other count is unchanged. The current pointer is cleared when it named the deleted context. |
| CmdDockerCompose.CreateThenDelete | cmd/docker-compose.go:41-137 | Creating a context and then deleting it, by name or as the current context, gives back the original contexts with no current context. |
| CmdDockerCompose.SetCurrent | cmd/docker-compose.go:144-160 | Succeeds exactly for one existing name and changes only the current pointer. Otherwise it gives the count error or the not-found error. |
| CmdDockerCompose.SetCurrentThenResolve | cmd/docker-compose.go:110-160 | After set-current, the argument-less commands act on that context. |
| CmdDockerCompose.UpDownSameProject | cmd/docker-compose.go:187-220 | start (line 187) and stop (line 220) run `docker compose -f <file>` on the same file, differing only in `up -d` versus `down -v`. |
| CmdDockerCompose.UpCommand | cmd/docker-compose.go:187 | `docker` with five arguments: the compose file third and `up` fourth. |
| CmdDockerCompose.DownCommand | cmd/docker-compose.go:220 | `docker` with five arguments: the compose file third and `down` fourth. |
| CmdDockerCompose.StartStopSameContext | cmd/docker-compose.go:164-225 | start and stop resolve the same context. Both run a program or neither does, with the same error when neither does, and both run `compose -f <file>` on the resolved context's file. |
| CmdDockerCompose.Start | cmd/docker-compose.go:167-192 | start runs `docker compose … up -d` on the resolved context's file, or nothing. |
| CmdDockerCompose.Stop | cmd/docker-compose.go:200-225 | stop runs `docker compose … down -v` on the resolved context's file, or nothing. |
| CmdDockerCompose.OpenFolder | cmd/docker-compose.go:233-258 | The context is resolved first. On darwin, `open` runs on the compose file's folder. Elsewhere it is an error naming the operating system, and nothing runs. |
| CmdHelm.NamespaceArgs | cmd/helm.go:45-66 | In both install and uninstall, `-n <ns>` is appended exactly when a namespace is given. |
| CmdHelm.CreateNamespace | cmd/helm.go:36 | `kubectl create namespace <ns>`, never helm. |
| CmdHelm.InstallCommand | cmd/helm.go:45-49 | helm with arguments starting `install <release> <chart>`. For a release other than "-n", the namespace read back is the one given. |
| CmdHelm.UninstallCommand | cmd/helm.go:63-67 | helm with arguments starting `uninstall <release>`, and the namespace read back is the one given. |
| CmdHelm.NamespaceOf | cmd/helm.go:46-47 | The namespace read back from an argument list is empty or the word that follows some "-n". |
| CmdHelm.InstallNamespace | cmd/helm.go:45-48 | Appending the namespace flags to `install <release> <chart>` lets the namespace be read back, for a release other than "-n". |
| CmdHelm.UninstallNamespace | cmd/helm.go:63-66 | The same for `uninstall <release>`, with no condition on the release. |
| CmdHelm.NamespaceRoundTrip | cmd/helm.go:45-67 | For a release other than "-n", install and uninstall both run helm on that release, and the namespace read back from each argument list is the one given. |
| CmdHelm.Install | cmd/helm.go:33-49 | Exactly two arguments. kubectl creates the namespace only when one is given, and a failure there ends the program before helm runs. Otherwise helm installs the release with the chart. |
| CmdHelm.Uninstall | cmd/helm.go:61-67 | Exactly one argument, else the count error and nothing runs. Then exactly one program, helm, runs: its arguments start `uninstall <release>`, the namespace read back from them is the one given, and its error is the command's. |
| CmdHelm.InstallRunsHelmLast | cmd/helm.go:34-49 | helm runs at most once per install, and only as the last program. |
| CmdJenkins.CliGet | cmd/jenkins.go:43-56 | The jar is downloaded from <url>/jnlpJars/jenkins-cli.jar, and the command's error is the download's. Only a successful download registers its absolute path. |
| CmdJenkins.ExecCheckAsWritten | cmd/jenkins.go:64-77 | As written: passes exactly for a registered path naming a regular file. Any other stat error dereferences a nil FileInfo. |
| CmdJenkins.ExecCheck | cmd/jenkins.go:64-77 | Passes exactly for a registered path naming a regular file, and never panics. |
| CmdJenkins.ExecCheckPanicsOnStatError | cmd/jenkins.go:69-73 | The two checks differ exactly on a stat error other than "does not exist", where the original panics. |
| CmdJenkins.ExecArgv | cmd/jenkins.go:79-89 | The argv starts `-jar jenkins-cli.jar -s <url>`, ends with the user's arguments, and has room for exactly the optional flags in between. |
| CmdJenkins.ParseExecArgv | cmd/jenkins.go:79-89 | The reader accepts exactly the lists that start `-jar jenkins-cli.jar -s`. The URL is the fourth element, and what it returns as the user's arguments is a suffix of the list. |
| CmdJenkins.ExecArgvParses | cmd/jenkins.go:79-89 | The options read back from the argv are the flags it was built from. The user's arguments come back unchanged. |
| CmdJenkins.Exec | cmd/jenkins.go:59-93 | As written: `java` runs exactly when a registered path names a regular file, with ExecArgv's arguments, and its error is the command's. Otherwise the check's error is returned, and a stat error other than "does not exist" is a panic. |
| CmdJenkins.ExecCorrected | cmd/jenkins.go:59-93 | The same command with the corrected check: it never panics. |
| CmdJenkins.ExecAgrees | cmd/jenkins.go:69-75 | The two commands are equal exactly when no stat error other than "does not exist" occurs. |
| CmdJenkins.NewContext | cmd/jenkins.go:103-104 | A context starts stopped, with pid -1. |
| CmdJenkins.Create | cmd/jenkins.go:116-131 | A taken name is refused first, then a missing war file. Otherwise the context is appended, becomes current, and is found under its name. |
| CmdJenkins.DeleteNamesEffect | cmd/jenkins.go:188-207 | Deleting a list of names never fails, because unknown names are skipped. Names not in the list keep their counts. The current pointer is cleared exactly when a deleted name was current and present. |
| CmdJenkins.DeleteNames | cmd/jenkins.go:190-203 | Deleting names never fails, keeps the CLI path and never adds contexts. |
| CmdJenkins.DeleteNamesRemovesEach | cmd/jenkins.go:190-203 | The contexts left after deleting several names are those of removing, name by name, the first context so named. Every other context keeps its record and its place. The current pointer plays no part. |
| CmdJenkins.DeleteNamesCounts | cmd/jenkins.go:190-203 | Each listed occurrence of a name removes one context of that name while any remain. A name listed m times with c contexts keeps c - m of them, or none when m >= c. An unlisted name keeps all its contexts. |
| CmdJenkins.Delete | cmd/jenkins.go:188 | At least one name is required. |
| CmdJenkins.DeleteOne | cmd/jenkins.go:190-203 | Deleting one existing name removes its first context and clears the current pointer when that context was current. |
| CmdJenkins.CreateThenDelete | cmd/jenkins.go:116-207 | Creating a context and then deleting it by name gives back the original contexts with no current context. |
| CmdJenkins.SetCurrent | cmd/jenkins.go:211-231 | Succeeds exactly for one existing name and changes only the current pointer. Otherwise it gives the not-found error. |
| CmdJenkins.Resolve | cmd/jenkins.go:239-255 | At most one argument. With none and no current context it is the "no context" error. Otherwise it is the lookup of the named or current context. |
| CmdJenkins.StartArgvLaunchesWar | cmd/jenkins.go:259-271 | When no JVM option or extra JVM option is `-jar`, the first `-jar` java sees is the one followed by the war. |
| CmdJenkins.StartArgv | cmd/jenkins.go:259-271 | The java arguments are the context's JVM options and the extra JVM options, then `-jar <war>`, then the context's Jenkins options. Its length is the sum of those parts. |
| CmdJenkins.StartEnv | cmd/jenkins.go:275-281 | The environment holds one to three entries and nothing else, because `c.Env` replaces the inherited one. JAVA_HOME is present exactly when set, and then comes first. JENKINS_HOME is present exactly when set. JENKINS_HA=false always comes last. |
| CmdJenkins.StartEnvReadsBack | cmd/jenkins.go:275-281 | Read the way a process reads its environment, the last entry winning, JAVA_HOME and JENKINS_HOME hold the context's values exactly when they are set, and JENKINS_HA is false. |
| CmdJenkins.StartAsWritten | cmd/jenkins.go:257-288 | As written: the launched process is java with that argv and environment, and a failed start panics on the nil Process. |
| CmdJenkins.Start | cmd/jenkins.go:257-288 | The same launch. A failed start returns its error, and a successful one records the pid on the context. |
| CmdJenkins.StartAgrees | cmd/jenkins.go:283-287 | When the process starts, the corrected start and the original agree. |
| CmdJenkins.StopTarget | cmd/jenkins.go:297-315 | Succeeds exactly when the resolved context is started (pid other than -1), and then it is that context. A stopped one gives "The context <name> is not started", and a resolution error is passed on. |
| CmdJenkins.Stop | cmd/jenkins.go:316-327 | A failed kill returns its error. After a successful SIGTERM the context's pid is -1 again. |
| CmdJenkins.SetPidThenRestore | pkg/config/config.go:160-172 | Updating a context's pid and then restoring its old record gives back the configuration. |
| CmdJenkins.StartThenStop | cmd/jenkins.go:235-327 | Starting a stopped context and stopping it gives back the configuration. In between, stop accepts it as started with the new pid. |
| CmdJenkins.AdminPassword | cmd/jenkins.go:332-361 | At most one argument. With none and no current context it is the "no context" error, and an unknown name gives JenkinsContextNotFound. Otherwise it is what reading <jenkinsHome>/secrets/initialAdminPassword of that context returns. |
| CmdJenkins.AdminPasswordFile | cmd/jenkins.go:355 | The file read is the context's cleaned Jenkins home with `secrets` and `initialAdminPassword` appended. |
| CmdOpen.ResourceNames | cmd/open.go:27-39 | Exactly the four names are known, and each "-dir" alias names the same directory as its short form. |
| CmdOpen.ResourceDir | cmd/open.go:34-39 | A name selects the projects or the servers directory. The projects directory, when it differs from the servers one, is selected only by "projects" or "projects-dir". |
| CmdOpen.Open | cmd/open.go:22-47 | The checks come in order: one argument, darwin, a known name, then an existing directory. Each failure has its own message. Only `open` on the projects or servers directory can run. |
| CmdServers.Resolve | cmd/servers.go:34-47 | Exactly one argument, which must be a registry server name, else ServerNotFound. An empty version means the default version. |
| CmdServers.Install | cmd/servers.go:48-51 | As written, with the tomcat install as written: an unknown server does nothing. A success either installs the version directory, or is the MkdirAll failure on a missing tomcat directory reported as success with nothing else done. |
| CmdServers.InstallCorrected | cmd/servers.go:48-51 | With the corrected tomcat install, a success installs the version directory. |
| CmdServers.InstallOutcome | cmd/servers.go:48-51 | For a resolved version that is absent and has a '.', the command as written succeeds exactly when MkdirAll fails or every step of the plan succeeds. A failure is the error of the last step carried out. |
| CmdServers.InstallCorrectedOutcome | cmd/servers.go:48-51 | With the corrected install, the command succeeds exactly when every step of MkdirAll and the plan succeeds. A failure is the error of the last step carried out. |
| CmdServers.InstallSucceeds | cmd/servers.go:48-51 | When the resolved version is absent and has a '.', and every step succeeds, the command installs the version directory. |
| CmdServers.InstallsAgree | cmd/servers.go:48-51 | The two commands are equal whenever creating a missing tomcat directory does not fail. |
| CmdServers.DefaultTomcatInstall | cmd/servers.go:34-51 | `servers install tomcat` with no version targets 10.0.10. An existing 10.0.10 directory is refused. A reported success installed 10.0.10, or was the hidden MkdirAll failure. |
| CmdServers.DefaultTomcatInstalls | cmd/servers.go:34-51 | With 10.0.10 absent and every step of its install succeeding, `servers install tomcat` reports success and installs 10.0.10. |
| CmdTools.Resolve | cmd/tools.go:38-51 | Exactly one argument, accepted exactly when it is a registry tool name, else ToolNotFound. An empty version means the tool's default version. |
| CmdTools.Install | cmd/tools.go:52-55 | An unknown tool does nothing. Otherwise the steps are a prefix of the resolved tool's install plan for the resolved version, and all of it on success. The command succeeds exactly when every step of that plan does. A failure is the error of the last step carried out. |
| CmdTools.ValidArgsInstall | cmd/tools.go:13-51 | Every name offered as a valid argument resolves to that registry tool at its default version. |
| Config.FindComposeContext | pkg/config/config.go:102-109 | The first context with that name, else DockerComposeContextNotFound carrying the name. |
| Config.AddComposeContext | pkg/config/config.go:112-114 | The context is appended with no duplicate check. Earlier entries and the current pointer are unchanged. |
| Config.DeleteComposeContext | pkg/config/config.go:117-126 | Removes only the first entry with that name and keeps the rest in order. With no match it gives not-found. |
| Config.ComposeDirIsParent | pkg/config/config.go:129-131 | The folder of a compose file written as a clean path is that path's parent. |
| Config.ComposeDirOfBareName | pkg/config/config.go:129-131 | A bare file name lies in ".". |
| Config.ComposeDir | pkg/config/config.go:129-131 | The folder of a compose file is never the empty string. |
| Config.FindJenkinsContext | pkg/config/config.go:134-141 | The first context with that name, else JenkinsContextNotFound carrying the name. |
| Config.AddJenkinsContext | pkg/config/config.go:144-146 | The context is appended with no duplicate check. Everything else is unchanged. |
| Config.DeleteJenkinsContext | pkg/config/config.go:149-158 | Removes only the first entry with that name and keeps the rest in order. With no match it gives not-found. |
| Config.UpdateJenkinsContext | pkg/config/config.go:160-172 | Only description, JavaHome, JenkinsHome, war and pid of the first match change. Name, options, JVM options and every other entry stay. With no match it gives not-found. |
| Config.Updated | pkg/config/config.go:163-167 | The record keeps the old name, options and JVM options and takes the other five fields from the new one. When those three already agree, it is the new record. |
| Config.UpdateThenFind | pkg/config/config.go:160-172 | After an update, the context found under the name is the updated record, and a second identical update changes nothing. |
| Config.AddMissing | pkg/config/config.go:79-83 | Existing keys keep their values, and every tool name becomes a key. |
| Config.AddMissingAddsOnlyTools | pkg/config/config.go:79-83 | Every key the fill adds is a tool name. |
| Config.AddMissingDefaults | pkg/config/config.go:79-83 | With distinct names, a tool missing from the map gets its default version, and every key afterwards was already there or is a tool name. |
| Config.AddMissingIdempotent | pkg/config/config.go:79-83 | Filling twice is filling once. |
| Config.AddMissingFirstDefault | pkg/config/config.go:79-83 | A missing name gets the default version of the first tool so named. |
| Config.FillDefaultToolsVersion | pkg/config/config.go:75-85 | A nil map is allocated. User values, including keys of unknown tools, are kept, and every tool name is present. |
| Config.FillDefaultToolsVersionAdds | pkg/config/config.go:75-85 | With distinct names, each missing tool gets its default version, and no other key appears. |
| Config.RegistryHasDistinctNames | pkg/config/tool.go:271-582 | The registry satisfies the distinct-names condition the fill lemmas assume. |
| Config.FillDefaultProjectsDir | pkg/config/config.go:87-92 | An empty projects directory becomes <home>/Projects. A set one is kept. |
| Config.FillDefaultServersDir | pkg/config/config.go:94-99 | An empty servers directory becomes <home>/Servers. A set one is kept. |
| Config.FillDefaults | pkg/config/config.go:68-70 | After Load's fills the map exists and both directories are set. The contexts are untouched. |
| Config.AddMissingNoop | pkg/config/config.go:79-83 | Once every tool name is a key, the fill changes nothing. |
| Config.FillDefaultToolsVersionIdempotent | pkg/config/config.go:75-85 | Filling twice is filling once. |
| Config.FillDefaultsIdempotent | pkg/config/config.go:68-99 | Loading a filled configuration fills nothing more. |
| Config.AddThenDeleteCompose | pkg/config/config.go:102-126 | A context added under a fresh name is found, and deleting it restores the store. |
| Config.AddKeepsFoundCompose | pkg/config/config.go:102-114 | Appending never hides the context already found under a name. |
| Config.DeleteComposeRemovesOne | pkg/config/config.go:117-126 | Deletion lowers the count of that name by one and keeps every other name's count. |
| Config.AddThenDeleteJenkins | pkg/config/config.go:134-158 | A context added under a fresh name is found, and deleting it restores the store. |
| Config.DeleteJenkinsRemovesOne | pkg/config/config.go:149-158 | Deletion lowers the count of that name by one and keeps every other name's count. |
| Errors.IsDockerComposeContextNotFound | pkg/config/errors.go:13-19 | False on nil. True exactly for a DockerComposeContextNotFound value. |
| Errors.IsJenkinsContextNotFound | pkg/config/errors.go:29-35 | False on nil. True exactly for a JenkinsContextNotFound value. |
| Errors.IsToolNotFound | pkg/config/errors.go:45-51 | False on nil. True exactly for a ToolNotFound value. |
| Errors.IsServerNotFound | pkg/config/errors.go:61-67 | False on nil. True exactly for a ServerNotFound value. |
| Errors.NotFoundKindsDisjoint | pkg/config/errors.go:13-67 | nil satisfies none of the four predicates, and no error satisfies two. |
| Errors.NotFoundMessageShape | pkg/config/errors.go:9-59 | Each message is its kind's fixed text, then the quoted name. |
| Errors.NotFoundMessageInjective | pkg/config/errors.go:9-59 | Two not-found errors with the same message are the same error, both in kind and in name. |
| FileSystem.MkdirAllAt | pkg/utils/utils.go:132-136 | In the modelled tree, MkdirAll only adds directories on the way to the location, which is a directory afterwards. Among the failures modelled, it fails only when some location on the way holds a file. |
| FileSystem.MkdirAll | pkg/utils/utils.go:136-138 | Its errors are path errors. |
| FileSystem.MkdirAllAtSucceeds | pkg/utils/utils.go:136-138 | On a well-formed tree, MkdirAll succeeds exactly when no location on the way holds a file. |
| FileSystem.MkdirAllAtIdempotent | pkg/utils/utils.go:132 | A second MkdirAll of the same location succeeds and changes nothing. |
| FileSystem.MkdirAllAtWellFormed | pkg/utils/utils.go:136-138 | MkdirAll keeps the tree well formed and leaves every ancestor a directory. |
| FileSystem.OpenTruncate | pkg/utils/utils.go:140-143 | Opening with create and truncate (also os.Create at line 199) changes only the target. The target is empty afterwards, with the requested mode when new and its old mode otherwise. |
| FileSystem.Chmod | pkg/utils/utils.go:203 | Only the opened file's mode changes. |
| FileSystem.WriteData | pkg/utils/utils.go:150 | Only the opened file's contents change (also the tar copy at line 205). |
| Lists.First | pkg/config/config.go:102-109 | The position of the first element with the key, or -1 exactly when there is none. |
| Lists.RemoveAt | pkg/config/config.go:120-122 | `append(s[:i], s[i+1:]...)` drops exactly the element at i and keeps the order of the rest. |
| Lists.RemoveFirstCount | pkg/config/config.go:117-126 | Removing the first match lowers that name's count by one and keeps every other count. |
| Lists.AppendFresh | pkg/config/config.go:112-126 | An element appended under a fresh name is found last, and removing it gives the list back. |
| Lists.AppendKeepsFirst | pkg/config/config.go:112-114 | Appending never changes the first match once there is one. |
| Lists.Keys | cmd/tools.go:13-17 | A ValidArgs list (also cmd/servers.go lines 13-17) holds the registry's names in registry order, and a name is in it exactly when the find-first loop finds it. |
| Paths.CleanOfClean | pkg/utils/utils.go:127 | filepath.Clean is idempotent on element lists. |
| Paths.CleanStringIdempotent | pkg/utils/utils.go:127 | filepath.Clean is idempotent on strings. |
| Paths.Clean | pkg/utils/utils.go:127 | filepath.Clean keeps whether the path is rooted and never adds an element. |
| Paths.CleanString | pkg/utils/utils.go:127 | filepath.Clean never returns "", and the result names the cleaned form of its input. |
| Paths.Join | pkg/utils/utils.go:125 | filepath.Join is "" exactly when every part is "". |
| Paths.Dir | pkg/utils/utils.go:136 | filepath.Dir never returns "". |
| Paths.JoinNames | cmd/jenkins.go:355 | Joining two simple names to a directory names the cleaned directory with both appended. |
| Paths.JoinName | pkg/config/server.go:31-32 | Joining a simple name to a directory names the cleaned directory with that name appended. |
| Paths.DirOfRender | pkg/config/config.go:129-131 | filepath.Dir of a clean path is its parent. |
| Paths.GuardIffBelow | pkg/utils/utils.go:127 | The string test "starts with the clean base and '/'" means element-wise strictly below a non-empty base. |
| Servers.FindIn | pkg/config/server.go:69-76 | The first server with that name, else ServerNotFound carrying the name. |
| Servers.FindServer | pkg/config/server.go:69-76 | Only "tomcat" is found. |
| Servers.Registry | pkg/config/server.go:26-66 | tomcat is registered, and no two servers share a name. |
| Servers.ServerNames | cmd/servers.go:13-17 | The offered names are the registry's names, in order. |
| Servers.TomcatsDir | pkg/config/server.go:31 | The tomcat directory is the cleaned servers directory with `tomcat` appended. |
| Servers.VersionDir | pkg/config/server.go:32 | For a simple version name, the version directory is that with the version appended. |
| Servers.VersionDirsApart | pkg/config/server.go:31-32 | Two versions get the same directory only when they are equal, and each directory lies directly inside the tomcat directory. |
| Servers.TomcatUrl | pkg/config/server.go:47 | The release URL ends in /apache-tomcat-<version>.zip. |
| Servers.ServerNamesAreFound | cmd/servers.go:13-17 | Every offered name is found. |
| Servers.MajorVersion | pkg/config/server.go:46 | The major version is the text before the first '.'. It exists exactly when the version contains '.', and otherwise the slice panics. |
| Servers.TomcatArchive | pkg/config/server.go:45 | The release is saved under a ".zip" name that Expand knows. |
| Servers.UnpackPlan | pkg/config/server.go:47-63 | Download the URL to the archive, unpack it into the destination, move `from` to `to`, remove the archive. It unpacks only that archive, only after downloading it, and, when the URL and the archive have the same format, in a format Expand knows. It installs `to`. |
| Servers.TomcatPlan | pkg/config/server.go:45-63 | After the checks the steps are: download TomcatUrl to tomcat.zip in the temporary directory, unpack it into <servers>/tomcat, rename <servers>/tomcat/apache-tomcat-<version> to <servers>/tomcat/<version>, and remove tomcat.zip. |
| Servers.Finish | pkg/config/server.go:45-63 | Steps already taken are kept, and a success carries out the whole plan. A version without '.' gives the slice panic. Otherwise it succeeds exactly when every step of the plan does, and a failure is the error of the last step carried out. |
| Servers.TomcatInstallAsWritten | pkg/config/server.go:30-64 | As written: an existing version directory is refused before anything is done. A success happened with the directory absent, and either installs the version directory, or is the MkdirAll failure on a missing tomcat directory with nothing else done. |
| Servers.TomcatInstall | pkg/config/server.go:30-64 | The same with the MkdirAll failure returned. Success installs the version directory. |
| Servers.TomcatInstallOutcome | pkg/config/server.go:30-64 | With the version directory absent and a '.' in the version, the corrected install succeeds exactly when every step of MkdirAll and the plan does. A failure is the error of the last step carried out. |
| Servers.TomcatAsWrittenOutcome | pkg/config/server.go:30-64 | With the version directory absent and a '.' in the version, the original install succeeds exactly when MkdirAll fails or every step of the plan succeeds. A failure is the error of the last step carried out. |
| Servers.TomcatAsWrittenHidesMkdirFailure | pkg/config/server.go:38-43 | When creating the tomcat directory fails, the original reports success having done nothing else. The corrected one reports the failure. |
| Servers.TomcatInstallsAgree | pkg/config/server.go:30-64 | Whenever that MkdirAll does not fail, the two installs are equal. |
| Servers.TomcatPanicsWithoutDot | pkg/config/server.go:46 | A version without '.' reaches the slice and panics after the checks. |
| Servers.TomcatInstallExpands | pkg/config/server.go:52 | The only unpacking the install performs is tomcat.zip into the tomcat directory. |
| Servers.TomcatNeverMeetsUnknownFormat | pkg/config/server.go:45-52 | So Expand never answers "Unknown archive format" during a Tomcat install. |
| Steps.Run | pkg/config/tool.go:41-72 | The steps carried out are a prefix of the plan, and all of it on success. A failure is the last step's error. |
| Steps.RunAppend | pkg/config/tool.go:41-72 | Running a concatenation runs the first part, and the second only if the first succeeded. |
| Steps.RunStopsAtFirstFailure | pkg/config/tool.go:41-72 | A run succeeds exactly when every step does. On failure, every step before the failing one succeeded. |
| Steps.ThenOutcome | pkg/config/server.go:38-63 | Running a first part and, only after it succeeded, something that succeeds exactly when a second part's steps all do, succeeds exactly when every step of both does. A failure is the error of the last step carried out. |
| Strings.IndexOf | pkg/config/server.go:46 | strings.Index of one character: the first position, or -1 exactly when the character is absent. |
| Strings.LastIndexOf | pkg/utils/utils.go:190 | strings.LastIndex of one character: the last position, or -1 exactly when absent. |
| Tools.FindTool | pkg/config/tool.go:584-591 | Found exactly when a registry tool has the name, and then it is that tool. Otherwise it is ToolNotFound carrying the name. |
| Tools.Registry | pkg/config/tool.go:271-582 | Sixteen tools, no two with the same install procedure. |
| Tools.Registered | pkg/config/tool.go:271-582 | The registry entry built for an install procedure carries that procedure. |
| Tools.ToolNames | cmd/tools.go:13-17 | The names offered are the registry's names, in registry order. |
| Tools.Platform | pkg/config/tool.go:12-19 | A tool has an OS function exactly when its mapping is not the empty one. |
| Tools.BatPlatform | pkg/config/tool.go:31-39 | bat's names: apple-darwin exactly for darwin, pc-windows-gnu exactly for windows, unknown-linux-gnu for every other system. |
| Tools.GeckodriverPlatform | pkg/config/tool.go:82-90 | geckodriver's names: macos exactly for darwin, linux64 exactly for linux, win64 for every other system. |
| Tools.MacOSOrGoos | pkg/config/tool.go:133-139 | gh's name is GOOS, except that darwin becomes macOS: never "darwin". |
| Tools.MacOrGoos | pkg/config/tool.go:182-188 | The openshift tools' name is GOOS, except that darwin becomes mac: never "darwin". |
| Tools.BatUrl | pkg/config/tool.go:45 | The release URL ends in ".tar.gz". |
| Tools.DiveUrl | pkg/config/tool.go:282 | The release URL ends in ".tar.gz". |
| Tools.GeckodriverUrl | pkg/config/tool.go:95 | The release URL ends in ".tar.gz". |
| Tools.GhUrl | pkg/config/tool.go:145 | The release URL ends in ".tar.gz". |
| Tools.HelmUrl | pkg/config/tool.go:324 | The release URL ends in ".tar.gz". |
| Tools.JqUrl | pkg/config/tool.go:379 | The release URL ends in /<per-system asset name>. |
| Tools.KindUrl | pkg/config/tool.go:388 | The release URL ends in /kind-<goos>-amd64. |
| Tools.KubectlUrl | pkg/config/tool.go:397 | The release URL ends in /bin/<goos>/amd64/kubectl. |
| Tools.KustomizeUrl | pkg/config/tool.go:407 | The release URL ends in ".tar.gz". |
| Tools.MavenUrl | pkg/config/tool.go:434 | The release URL ends in ".zip". |
| Tools.MinishiftUrl | pkg/config/tool.go:492 | The release URL ends in ".tgz". |
| Tools.OpenshiftClientUrl | pkg/config/tool.go:192 | The release URL ends in ".tar.gz". |
| Tools.OpenshiftInstallUrl | pkg/config/tool.go:240 | The release URL ends in ".tar.gz". |
| Tools.OperatorSdkUrl | pkg/config/tool.go:533 | The release URL ends in /operator-sdk_<goos>_amd64. |
| Tools.TerraformUrl | pkg/config/tool.go:543 | The release URL ends in ".zip". |
| Tools.YqUrl | pkg/config/tool.go:578 | The release URL ends in /yq_<goos>_amd64. |
| Tools.RegistryNamesDistinct | pkg/config/tool.go:271-582 | No two registry tools share a name, so the first match is the only one. |
| Tools.ToolNamesAreFound | cmd/tools.go:13-17 | A name is offered (FindTool, pkg/config/tool.go lines 584-591) exactly when it is found, and it is found as that very registry entry. |
| Tools.PlatformNeverDarwin | pkg/config/tool.go:31-235 | The OS functions of bat, geckodriver, gh and the two openshift tools. No mapping keeps "darwin". On other systems only bat and geckodriver rename the GOOS. |
| Tools.PlatformsDiffer | pkg/config/tool.go:31-235 | Each OS function gives darwin, linux and windows three different asset names. |
| Tools.ViaTempDir | pkg/config/tool.go:41-72 | The shared archive flow downloads the URL to <tmp>/<file>, and moves <tmp>/<dir>/<binary path> to the target, then makes it executable when asked. When the file is a simple name in the URL's format, it unpacks only what it downloaded. It installs the target. |
| Tools.ViaTempDirShape | pkg/config/tool.go:41-72 | Its order: download, mkdir, unpack the download, move the binary to the target, and at the end remove the archive and the directory. It unpacks only once. |
| Tools.TempDirSteps | pkg/config/tool.go:41-72 | The flow over given paths: download, mkdir 0755, unpack the archive into the directory, rename, optional chmod, then remove the archive and the directory. It unpacks only at the third step and installs the target. |
| Tools.BatPlan | pkg/config/tool.go:41-72 | bat downloads BatUrl to <tmp>/bat.tar.gz and moves bat/bat-v<v>-x86_64-<platform>/bat to /usr/local/bin/<CommandLineName>. It unpacks only its download and installs that binary. |
| Tools.DivePlan | pkg/config/tool.go:280-313 | dive downloads DiveUrl to <tmp>/dive.tar.gz, moves dive/dive to /usr/local/bin/dive and makes it executable. It unpacks only its download. |
| Tools.GeckodriverPlan | pkg/config/tool.go:92-122 | geckodriver downloads GeckodriverUrl to <tmp>/geckodriver.tar.gz and moves geckodriver/geckodriver to /usr/local/bin/<CommandLineName>. It unpacks only its download. |
| Tools.GhPlan | pkg/config/tool.go:141-172 | gh downloads GhUrl to <tmp>/gh.tar.gz and moves github/gh_<v>_<platform>_amd64/bin/gh to /usr/local/bin/<CommandLineName>. It unpacks only its download. |
| Tools.HelmPlan | pkg/config/tool.go:322-351 | helm downloads HelmUrl to <tmp>/helm.tar.gz and moves helm/<goos>-amd64/helm to /usr/local/bin/helm. It unpacks only its download. |
| Tools.JqPlan | pkg/config/tool.go:358-380 | jq is one download of a URL ending in its per-system asset name: to /usr/local/bin/jq on darwin and linux, and to C:\jq.exe elsewhere. |
| Tools.KindPlan | pkg/config/tool.go:387-389 | kind is one download, of a URL ending /kind-<goos>-amd64, to /usr/local/bin/kind. |
| Tools.KubectlPlan | pkg/config/tool.go:396-398 | kubectl is one download, of a URL ending /bin/<goos>/amd64/kubectl, to /usr/local/bin/kubectl. |
| Tools.KustomizePlan | pkg/config/tool.go:405-425 | kustomize downloads KustomizeUrl to <tmp>/kustomize.tar.gz, unpacks it into /usr/local/bin, removes the archive and makes /usr/local/bin/kustomize executable. |
| Tools.UnpackInPlace | pkg/config/tool.go:405-425 | Download, unpack in place, remove the archive, chmod the target: it unpacks only its download when the formats agree, and installs the target. |
| Tools.MavenPlan | pkg/config/tool.go:432-483 | maven downloads MavenUrl to <tmp>/maven.zip, makes the per-system home if missing, unpacks into it, and renames apache-maven-<v> to <v>. It then registers mvn and removes the archive. On linux it links /usr/local/bin/mvn. |
| Tools.MavenSteps | pkg/config/tool.go:432-483 | The maven flow over given paths. The registration steps sit between the rename and the removal of the archive. A link as the first of them is installed. |
| Tools.MavenLink | pkg/config/tool.go:462-480 | Registering mvn unpacks nothing. |
| Tools.MinishiftPlan | pkg/config/tool.go:490-523 | minishift fetches a URL ending .tgz but saves it as <tmp>/minishift.tar.gz. It moves minishift/minishift-<v>-<goos>-amd64/minishift to /usr/local/bin/minishift and makes it executable. |
| Tools.OpenshiftClientPlan | pkg/config/tool.go:190-219 | The openshift client downloads its URL to <tmp>/openshift-client.tar.gz and moves openshift-client/oc to /usr/local/bin/<CommandLineName>. It unpacks only its download. |
| Tools.OpenshiftInstallPlan | pkg/config/tool.go:237-267 | openshift-install downloads its URL to <tmp>/openshift-install.tar.gz and moves openshift-install/openshift-install to /usr/local/bin/<CommandLineName>. It unpacks only its download. |
| Tools.OperatorSdkPlan | pkg/config/tool.go:532-534 | operator-sdk is one download, of a URL ending /operator-sdk_<goos>_amd64, to /usr/local/bin/operator-sdk. |
| Tools.TerraformPlan | pkg/config/tool.go:541-570 | terraform downloads TerraformUrl to <tmp>/terraform.zip and moves terraform/terraform to /usr/local/bin/terraform. It unpacks only its download. |
| Tools.YqPlan | pkg/config/tool.go:577-579 | yq is one download, of a URL ending /yq_<goos>_amd64, to /usr/local/bin/yq. |
| Tools.InstallPlan | pkg/config/tool.go:271-582 | Whatever the tool and system, every archive an install unpacks was downloaded earlier in it, from a URL of the same format as the saved name, in a format Expand knows. |
| Tools.Install | pkg/config/tool.go:41-72 | Tool.Install carries out a prefix of its plan, and the whole plan on success. It succeeds exactly when every step of the plan does. A failure is the error of the last step carried out. |
| Tools.ArchiveName | pkg/config/tool.go:42 | Each archive (also lines 433, 491 and 542) is saved under a name ending in ".zip" or ".tar.gz". |
| Tools.FormatJoined | pkg/config/tool.go:42 | A download saved under a simple name keeps the URL's format once it is joined to the temporary directory. |
| Tools.InstallNeverMeetsUnknownFormat | pkg/config/tool.go:271-582 | No registry install ever makes Expand answer "Unknown archive format". |
| Tools.InstallsTargetName | pkg/config/tool.go:271-582 | On linux every install procedure puts its binary at /usr/local/bin/<target>. |
| Tools.TargetIsCommandLineName | pkg/config/tool.go:271-582 | Each literal install target is the tool's CommandLineName. |
| Tools.LinuxInstallsCommandLineName | pkg/config/tool.go:271-582 | On linux every registry tool ends up at /usr/local/bin/<CommandLineName>, with maven there as a symbolic link. |
| Tools.RegistryIsRegistered | pkg/config/tool.go:271-582 | Each registry entry is the tool that carries its install procedure. |

## Left out

- I/O boundaries are parameters:
  - HTTP downloads, `exec.Command` and the programs it starts, clipboard and browser are represented only by their outcome;
  - `os.TempDir`, the home directory, `filepath.Abs`'s working directory, `runtime.GOOS` and `os.Stat` are parameters too.
- Reading and writing the configuration file (`Load`, `Save`, bootstrapping with `log.Fatal`):
  - JSON and file I/O are not modelled, and neither are the errors `Save` returns;
  - `FillDefaults` models what `Load` does once the file is decoded.
- Parsing zip, gzip and tar containers is library code. An archive is a given entry list, with an optional reader error after the last entry or in an entry's bytes.
- Paths follow Unix rules only. There are no volume names, no '\\' separators and no symbolic-link resolution, and a path names a location lexically.
- Processes are not modelled:
  - `syscall.Kill`, real pids and process lifetimes are out;
  - the pid a started process gets and whether the kill succeeds are inputs.
- Printed output is not modelled:
  - the `list` commands, `cmd/version.go` and success messages are out;
  - so is the line jenkins delete prints for an unknown name, though skipping that name is modelled.
- Some command files are not part of this model:
  - `cmd/kind.go` and `cmd/projects.go` hold only fixed argument lists for kind, kubectl and git, plus directory scanning;
  - `cmd/helper.go` is an interactive prompt whose confirmed branch is empty;
  - `cmd/root.go` and `main.go` are cobra wiring;
  - `cmd/tools_test.go` is a container-based integration test.
- Required-flag checks (cobra's `MarkFlagRequired`) and flag parsing are not modelled. The flags arrive as parameters.
- Tool descriptions are kept as data (`Tools.Description`) but are used only by the list command, which is left out.
- Registry parameters: `DefaultSupportedTools` is a global that `Config` reads. The fill and restore functions take the registry as a parameter and apply to `Tools.Registry()`.
- Servers.TomcatInstall: `os.Stat(versionDir)` treats every stat error other than "does not exist" as "already present". The model's `absent` parameter stands for "stat reported does not exist", so such errors count as present, as in the code.
- CmdHelm.Install: `log.Fatal` prints the output of `utils.ExecCommand`, which is always "" (pkg/utils/utils.go:34-36). The model's Fatal error carries "".
- CmdJenkins.Exec: the check looks at the registered jar path, but `java` runs `-jar jenkins-cli.jar` relative to the working directory. The model keeps that argument list as written; the exec error and the panic on other stat errors are modelled.
- Servers.TomcatInstall: its own contract states what a success did. That it succeeds exactly when every step does, and that a failure is the last step's error, is stated by Servers.TomcatInstallOutcome.
- Servers.TomcatInstallAsWritten: likewise; the converse and the error identity are in Servers.TomcatAsWrittenOutcome.
- CmdServers.Install: likewise; the converse and the error identity are in CmdServers.InstallOutcome and CmdServers.InstallSucceeds.
- CmdServers.InstallCorrected: likewise; the converse and the error identity are in CmdServers.InstallCorrectedOutcome.
- CmdJenkins.Delete: its own contract states only the argument rule. What deletion does is stated by CmdJenkins.DeleteNamesEffect, CmdJenkins.DeleteNamesCounts and CmdJenkins.DeleteOne.
- Tools.InstallPlan: its own contract states that it unpacks only downloads. Where each tool lands is stated by the per-tool plans and Tools.LinuxInstallsCommandLineName.
- Tools.MavenPlan: on darwin, mvn is registered through /etc/paths.d instead of a link. The contract states the linux link only.
- Tools.PlatformNeverDarwin: the exact asset names per system are the bodies of the mapping functions. The lemma states only what they have in common.
- FileSystem.MkdirAllAt: permissions, the umask and OS failures such as EACCES, EROFS or ENOSPC are not modelled. The only failure is a file on the way (ENOTDIR), so the contract says nothing about those other errors.
- Paths.Dir: its own contract states only that the result is not empty. Paths.DirOfRender and Config.ComposeDirIsParent state what it is.
- Config.ComposeDir: its own contract states only that the result is not empty. Config.ComposeDirIsParent states that it is the compose file's parent.
- Paths.Clean and Paths.CleanString: their own contracts state what is kept and that the result is never empty. That cleaning is idempotent is stated by Paths.CleanStringIdempotent.
- The URL functions state how each release URL ends (its format or its asset name). The full literal, with the version and platform in it, is the function body:
  - Tools.BatUrl, Tools.DiveUrl, Tools.GeckodriverUrl, Tools.GhUrl, Tools.HelmUrl, Tools.KustomizeUrl, Tools.MinishiftUrl, Tools.OpenshiftClientUrl, Tools.OpenshiftInstallUrl, Tools.MavenUrl and Tools.TerraformUrl state their archive format;
  - Tools.JqUrl, Tools.KindUrl, Tools.KubectlUrl, Tools.OperatorSdkUrl and Tools.YqUrl state their asset name.
- Tools.Registry: its own contract states the size and that the install procedures are distinct. Which entry is which tool is stated by Tools.RegistryIsRegistered.
- CmdServers.Install models the command as written, on top of the as-written tomcat install. CmdServers.InstallCorrected is the same command with the corrected install.
- Strings.NatToString and Errors.Message: the count messages cobra prints are modelled as text for completeness, and no property is proved about their wording.

## Findings

| source | as written | input that shows it | evidently intended | confidence | as-written member | corrected member |
|---|---|---|---|---|---|---|
| pkg/utils/utils.go:183-209 | untarGz joins each entry name to the destination with no check, unlike unzip | a .tar.gz holding the file "../evil", extracted into "/out", creates "/evil" | the same "Illegal file path" guard as unzip, so nothing lands outside the destination | not executed; high | Archive.ExpandAsWritten, Archive.ExpandAsWrittenEscapes | Archive.Expand, Archive.ProcessConfined |
| pkg/config/server.go:38-43 | when MkdirAll of the tomcat directory fails, Install returns nil | servers install tomcat where <servers>/tomcat is missing and cannot be created | that MkdirAll error is returned | not executed; high | Servers.TomcatInstallAsWritten, Servers.TomcatAsWrittenHidesMkdirFailure, CmdServers.Install | Servers.TomcatInstall, Servers.TomcatInstallsAgree, CmdServers.InstallCorrected, CmdServers.InstallsAgree |
| cmd/jenkins.go:283-287 | after `DisplayCommandOutput` fails, `c.Process.Pid` is read from a command that never started | jenkins context start with no `java` on the PATH | the start error is returned and the pid left untouched | not executed; high | CmdJenkins.StartAsWritten | CmdJenkins.Start, CmdJenkins.StartAgrees |
| cmd/jenkins.go:69-75 | when os.Stat fails with an error other than "does not exist", `info.IsDir()` is called on a nil FileInfo | jenkins cli exec with a registered path whose parent directory is not searchable (permission denied) | the stat error is returned | not executed; medium | CmdJenkins.ExecCheckAsWritten, CmdJenkins.ExecCheckPanicsOnStatError, CmdJenkins.Exec | CmdJenkins.ExecCheck, CmdJenkins.ExecCorrected, CmdJenkins.ExecAgrees |
