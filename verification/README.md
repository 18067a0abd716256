# kubepkg, verified

A Dafny model of the parts of kubepkg whose correctness does not show in any single function: the
airgap pipeline, the config-reload controllers, the JSON overlay and diff algebra, manifest and pod
generation, and three text codecs. Imperative Go and TypeScript code is modelled as classes and methods with
loops, each proved against a specification function; the properties are lemmas about those functions and
about state machines over whole runs. `dafny verify dfyconfig.toml` checks everything.

## What is modelled

**Airgap pipeline** (`Registry`, `ImageCollector`, `DigestResolver`, `ResolverProofs`, `PackageResolver`, `KubeTar`,
`KubeTarRange`, `Airgap`, `AirgapImport`, `AirgapSilence`, `AirgapPipeline`, `BlobStorage`, `ProxyCache`). A registry is a map
of manifests and blobs. Resolution walks the manifest graph; what it records is exactly what is reachable
through needed platforms, every reference before the manifest that makes it. A packed archive, read back,
gives the same packages and one callback per packed digest. Importing an incremental archive over a target
that has the previous blobs adds exactly the missing digests, and an import cut off anywhere leaves no imported
manifest dangling. Both content-addressed stores are state machines over interleaved uploads and readers.

**Config reload** (`Metadata`, `ReloadProtocol`, `StaleLists`, `PassOutcome`, `ReloadController`, `ReloadHashes`, `ReloadMeaning`). Both reconcilers are one machine
over objects, workloads, a work queue and passes in progress, with edits, failures, retries, restarts and
interleaving. Workloads are listed from a cache, so a listing may show any version a workload has had; the model
says when that is harmless, what happens when it is not, and exactly which passes leave their object in sync. `Reconcile` and what it calls are methods proved to
be runs of that machine. The hashes that extraction writes beforehand are compared with theirs, and
what reloading comes to is read off the volumes of the package that generated the workload.

**JSON** (`Wrappers`, `Json`, `Overlay`, `OverlayMeaning`, `JsonPointer`, `JsonDiff`). `DiffObj` and `MergeObj`, what they
hold at each path, and their algebraic laws, each with the exact condition under which it holds; pointers as in RFC 6901, sections 3 and 4; the editor's diff
as a set of marks whose application, in any order, turns the old document into the new one.

**Manifests and pods** (`Package`, `Tables`, `InstallOrder`, `ManifestCollect`, `ManifestTable`, `ManifestMeaning`, `ManifestExtract`,
`ManifestPath`, `ManifestWalker`, `KubeUtil`, `PodTemplate`, `PodProofs`, `PodMeaning`). What a package registers, with contents, and
what of it is left when later manifests replace earlier ones; the install order and when it is a total order; the
walker over a shared path buffer, with Go's `append` writing into the same array; pod templates for every order in
which maps are visited.

**Text and arithmetic** (`Text`, `EnvRef`, `Authorization`, `FileSize`). Environment references, the
authorization header, and the size-printing loop over a 64-bit integer.

## Where the code departs from its intent

- `pkg/util/obj.go:39` asserts `left` twice, so an object equals anything (`Overlay.GoEqualMeaning`);
  `Overlay.MaskedChange` is a change that gets lost, `Overlay.DiffIsAsGoodAsTheWhole` says exactly when none is.
- `pkg/kubepkg/manifest/kind_order.go:73-80` ties unlisted kinds with `Namespace`; `InstallOrder.CustomKindCycle`
  closes a cycle, `InstallOrder.StrictTotalExactly` says exactly when the order is total.
- `pkg/apis/kubepkg/v1alpha1/container.go:110-115` falls through, so a field reference also sets `Value`, and
  lines 125 and 136 slice past the end; `EnvRef.PanicsExactly` gives the texts on which they panic, and
  `EnvRef.RoundTripExactly` the variables that survive their text form.
- `pkg/kubepkg/kubepkg.go:134-136` wraps a nil error, so a malformed blob path ends the reading with neither packages
  nor an error. `AirgapSilence.SilentExactly` says for every archive when that happens, and
  `AirgapSilence.EverythingImportedSilently` that it may be after everything has been imported.
- `pkg/containerregistry/proxy/proxyblobstore.go:119-129` never closes its reader, so `Get` caches nothing
  (`ProxyCache.ProxyBlobStore.Get`), and a reader closed early caches a prefix that happens to have the digest
  asked for (`ProxyCache.TransparentExactly`).
- Both reconcilers skip an object that carries its own hash key with the current hash
  (`ReloadProtocol.ReadSkipsExactlyUnmanaged`), though no code writes that key to objects; and an edit that
  brings a fitting reload hash along goes unnoticed (`ReloadProtocol.EditNoticedIffHonest`,
  `StaleLists.DishonestEditMisses`).
- `pkg/kubepkg/manifest/kubepkg.go:70-76` hashes a Secret's `Data`, while a package's Secrets have `StringData`: the hash is
  that of no data, and the reload controller restarts the pods after installation
  (`ReloadHashes.ControllerChangesExactly`). Names are looked up in lower case there (`ReloadHashes.UpperCaseIsNotHashed`).
- `pkg/kubepkg/digestresolver.go:40-65` passes over init containers and jobs, so their images are neither resolved nor
  exported on that account (`ImageCollector.InitImageIsMissed`).
- `pkg/kubepkg/manifest/spec.go:28` overwrites, and `SubResourceName` maps different names to one: settings and a
  ConfigMap volume `~p` of a package `p` collide, and which of them is installed depends on map order
  (`ManifestTable.SettingsOfPMeetVolume`); a volume with the name of a service's endpoints is always lost
  (`ManifestTable.EndpointsReplaceVolume`). `ManifestTable.TableDeterminedExactly` and
  `ManifestTable.NothingIsLostExactly` say exactly when neither happens.
- `pkg/kubepkg/controller/reload_configmap.go:70` lists workloads through the manager's client while line 45 reads the
  object from the API server. A stale copy that carries the hash is skipped although the workload has lost it, and a
  reload is missed (`StaleLists.StaleListMisses`).
- `pkg/kubeutil/metadata.go:62-77` deletes the list when the appended name is empty. A ConfigMap volume named `~` erases
  the other ConfigMaps from what the pod reloads on, when it is visited last (`PodProofs.LastEmptyNameErases`,
  `PodProofs.TildeErasesSettings`); `PodProofs.ReloadListsExactly` says exactly when no order loses a name.

## Model

| member | source | states |
|---|---|---|
| `ImageCollector.CollectImages` | pkg/kubepkg/digestresolver.go:34-70 | the loops note the references of all deployments, daemon sets and stateful sets, at every depth of nested packages, in the order of some run |
| `ImageCollector.NotedExactly` | pkg/kubepkg/digestresolver.go:40-52 | exactly the names of a list of references are noted, each with the digest it was last pinned to, or else the one known before |
| `ImageCollector.ReferenceMeaning` | pkg/kubepkg/digestresolver.go:40-52 | a reference is a name, or a name and the digest it is pinned to around `@` |
| `ImageCollector.CollectedExactly` | pkg/kubepkg/digestresolver.go:54-68 | every run notes exactly the names that a container proper of one of those manifests has, at any depth |
| `ImageCollector.InitImageIsMissed` | pkg/kubepkg/digestresolver.go:54-68 | so an image that, in the whole package, only init containers or other manifests name is not noted |
| `ImageCollector.NotedDeterminedExactly` | pkg/kubepkg/digestresolver.go:34-70 | what is noted is the same for every order of the manifests, at every depth, exactly when no name is pinned to different digests |
| `DigestResolver.Resolve` | pkg/kubepkg/digestresolver.go:136-213 | terminates on acyclic content, only appends to the recorded digests, appends what the walk specification lists even when it fails, succeeds exactly when the walk does, and returns the pinned digest with its media type and size; `ResolverProofs.WalkRecordsExactly` and `ResolverProofs.WalkSucceedsExactly` say what the walk is in terms of the registry |
| `DigestResolver.ResolveEntries` | pkg/kubepkg/digestresolver.go:151-165 | the loop over index entries records, in order and up to the first failure, those that are needed; `ResolverProofs.EntryMeaning` says which are |
| `DigestResolver.AppendReferences` | pkg/kubepkg/digestresolver.go:166-195 | the loop over config and layers records each in order |
| `ResolverProofs.WalkIsComplete` | pkg/kubepkg/digestresolver.go:136-213 | a successful resolution finds the manifest at every digest that index entries for wanted platforms lead to, and records it, its config and its layers |
| `ResolverProofs.WalkIsSound` | pkg/kubepkg/digestresolver.go:136-213 | every record is of a manifest they lead to, or of its config or a layer, also after a failure half-way |
| `ResolverProofs.EntryMeaning` | pkg/kubepkg/digestresolver.go:261-319 | an index entry is resolved exactly when its own `os[/architecture][/variant]`, without the `v8` of `arm64`, or else the platform of the index, is in the list of wanted ones, or is `linux/amd64` or `linux/arm64` when there is none |
| `ResolverProofs.ArmIsWantedByDefault` | pkg/kubepkg/digestresolver.go:261-319 | so the entry for `linux`, `arm64`, `v8` is resolved unless other platforms are asked for |
| `ResolverProofs.WalkRecordsExactly` | pkg/kubepkg/digestresolver.go:136-213 | a successful resolution records exactly the manifests so led to, with their configs and layers: type by media type, digest and size of the reference, name and tag of the image, and the platform its config names or else the one it was reached for |
| `ResolverProofs.WalkSucceedsExactly` | pkg/kubepkg/digestresolver.go:136-213 | it succeeds exactly when every digest it is led to is that of a manifest |
| `ResolverProofs.WalkIsPostOrdered` | pkg/kubepkg/digestresolver.go:136-213 | every needed reference is recorded before the manifest that refers to it |
| `ResolverProofs.PostOrderedConcat` | pkg/kubepkg/digestresolver.go:136-213 | post-order survives resolving one image after another |
| `PackageResolver.ResolvePackage` | pkg/kubepkg/digestresolver.go:72-127 | for every order of the images: success pins every image and records all its digests, and no others, after those already there; if configs and layers are not of a manifest media type it keeps post-order; failure means some image does not resolve |
| `PackageResolver.ResolvedMeaning` | pkg/kubepkg/digestresolver.go:72-127 | each image is then pinned to the digest recorded for it, else to that in its name, else to that of its tag; the records are those of before and those of what these lead to for the platforms the annotation lists |
| `PackageResolver.ResolvesExactly` | pkg/kubepkg/digestresolver.go:96-127 | an image resolves exactly when it has such a digest and that leads to nothing but manifests |
| `PackageResolver.ResolveWithManifests` | pkg/kubepkg/digestresolver.go:72-127 | the images resolved are those of the package and those its manifests name |
| `Registry.ParsedDigest` | pkg/kubepkg/packer.go:230-243 | a parsed digest is its algorithm and hex part around one colon, both free of slashes and colons |
| `KubeTar.TarWriter.WriteMeta` | pkg/kubepkg/packer.go:108-206 | one recorded digest appends its entry, nothing when filtered out, and fails on missing content |
| `KubeTar.MetasPackExactly` | pkg/kubepkg/packer.go:108-206 | packing records succeeds exactly when every digest parses and what it names is there, but for blobs left out; the entries are then exactly those of the records, under `blobs/<algorithm>/<hash>` |
| `KubeTar.ImagesCounted` | pkg/kubepkg/packer.go:194-208 | there are image manifests to count exactly when some record of type manifest is of a Docker or an OCI image manifest, and docker manifests exactly when one is of a Docker one |
| `KubeTar.PackageMeaning` | pkg/kubepkg/packer.go:101-228 | a package packs exactly when all its records do and one names such an image manifest; then index and layout file follow, and `manifest.json` exactly when one is a Docker one |
| `KubeTar.TarWriter.WriteBlobs` | pkg/kubepkg/packer.go:102-206 | the loop appends the entries of all recorded digests up to the first error and counts image and docker manifests; `KubeTar.ImagesCounted` says what counts |
| `KubeTar.TarWriter.WriteToKubeTar` | pkg/kubepkg/packer.go:101-228 | the entries of one package; `KubeTar.PackageMeaning` says exactly when it is refused and what is written |
| `KubeTar.TarWriter.KubeTarTo` | pkg/kubepkg/packer.go:56-93 | the whole archive: header, then the packages in order, up to the first error |
| `KubeTarRange.FillDigests` | pkg/kubepkg/kubepkg.go:87-99 | the digest table holds the last record of every digest of the packages |
| `KubeTarRange.LastOfMeaning` | pkg/kubepkg/kubepkg.go:87-99 | a digest is in the table exactly when recorded, and with the last of its records |
| `KubeTarRange.LocalRegistry.EachBlob` | pkg/kubepkg/kubepkg.go:161-278 | importing one blob skips what is there, stores new content under the digest of its record, and refuses it exactly when its hash is another digest or the record has a positive size and another one |
| `KubeTarRange.ImportMeaning` | pkg/kubepkg/kubepkg.go:161-278 | importing any calls from any start: what was there stays, what is added hashes to its digest, the digests added are those of the records accepted, and importing stops at the first call whose record has a type, whose digest is absent, and whose content has another hash, or size if a positive one is recorded |
| `KubeTarRange.OutcomeMeaning` | pkg/kubepkg/kubepkg.go:81-149 | for every archive and start the same holds of an import, which returns packages exactly when reading does and no call is refused |
| `KubeTarRange.KubeTarRange` | pkg/kubepkg/kubepkg.go:81-149 | reading an archive makes the specified calls in order up to the first that fails, leaving the store those imports leave; whatever the archive holds, what is added is stored under its own hash and what was there stays |
| `KubeTarRange.PackagesAreOfLastHeader` | pkg/kubepkg/kubepkg.go:101-148 | the packages returned are those of the last header |
| `KubeTarRange.EveryBlobIsCalledBack` | pkg/kubepkg/kubepkg.go:101-148 | reading that returns packages has called back once for each blob entry, in order, numbered consecutively and with its content |
| `Airgap.BlobPathReadsBack` | pkg/kubepkg/packer.go:230-243 | the digest can be read back from its entry name |
| `Airgap.ReadsEntry` | pkg/kubepkg/kubepkg.go:125-142 | reading a blob entry written for a recorded digest makes one call, for that digest with its last record, and goes on with the rest |
| `Airgap.RangeFiles` | pkg/kubepkg/kubepkg.go:103-146 | reading skips the index, docker and layout files |
| `Airgap.ReadsMetas` | pkg/kubepkg/kubepkg.go:103-146 | reading what was written for a list of digests makes one call per packed digest, in order and numbered consecutively |
| `Airgap.RangeOfPack` | pkg/kubepkg/kubepkg.go:81-149 | reading a packed archive gives back the packages exactly when all are named and a single one has its kind set; then there is one call per packed digest, in written order, numbered from 0, with the last record of the digest and the number of distinct digests |
| `Airgap.RangeFillsOnce` | pkg/kubepkg/kubepkg.go:87-99 | filling the digest table lazily is as good as filling it first |
| `Airgap.RangeOfPackThen` | pkg/kubepkg/kubepkg.go:81-149 | what follows the packages in an archive is read after one call for every packed digest |
| `AirgapSilence.SilentExactly` | pkg/kubepkg/kubepkg.go:101-148 | for every archive: reading ends with neither packages nor an error exactly when it holds no packages and no blobs, or comes to a blob path without three parts after packages, every header before having loaded and every blob before being well formed and after packages |
| `AirgapSilence.SilentImportExactly` | pkg/kubepkg/kubepkg.go:125-148 | an import does so exactly when reading does and every call made before was accepted |
| `AirgapSilence.SilentAfterAll` | pkg/kubepkg/kubepkg.go:134-136 | with such a path behind a packed archive, that is after a call for every packed digest, whatever follows |
| `AirgapSilence.EverythingImportedSilently` | pkg/kubepkg/kubepkg.go:134-136 | and after every packed digest has been imported |
| `AirgapImport.BlobsExist` | cmd/kubepkg/export.go:114-126 | the since table holds exactly the blob digests of the previous packages |
| `AirgapImport.SinceMeaning` | cmd/kubepkg/export.go:114-142 | the filter lets through exactly the digests that no previous package records as a blob |
| `AirgapImport.ArchiveIsMinimal` | cmd/kubepkg/export.go:114-142 | an incremental archive has no entry for a blob the previous packages have |
| `AirgapImport.EntryHasMeta` | pkg/kubepkg/packer.go:101-228 | every blob entry of an archive was written for a recorded digest that passes the filter, with its content |
| `AirgapImport.ImportAddsPacked` | pkg/kubepkg/kubepkg.go:161-278 | importing the calls of packed digests accepts all and adds exactly their content, each under its hash |
| `AirgapImport.ImportSoFar` | pkg/kubepkg/kubepkg.go:81-149 | wherever an import stops, the target is what it was plus the digests of the calls made |
| `AirgapImport.IncrementalImportIsComplete` | cmd/kubepkg/export.go:114-142 | over a target with the previous blobs an incremental import succeeds, removes and changes nothing, and adds exactly the digests of the new packages, each under its hash |
| `AirgapImport.InterruptedImportIsClosed` | pkg/kubepkg/kubepkg.go:81-149 | an import cut off after any number of calls has, for each imported manifest, all the content it needs |
| `AirgapPipeline.WalkRecordsHonestly` | pkg/kubepkg/digestresolver.go:136-213 | resolving a registry with truthful manifests records only content it has, with its size |
| `AirgapPipeline.HonestRecordsAreHonestMetas` | pkg/kubepkg/kubepkg.go:90-95 | of several such records for one digest any may be kept, as `KubeTarRange` does |
| `AirgapPipeline.HonestRecordsPack` | pkg/kubepkg/packer.go:101-206 | the loop over such records meets no error |
| `AirgapPipeline.HonestPackagesPack` | pkg/kubepkg/packer.go:101-228 | packages of honest records pack exactly when each has a record of a Docker or OCI image manifest |
| `AirgapPipeline.ExportTransfersExactly` | cmd/kubepkg/export.go:135-145 | what was resolved against an honest registry can be transferred exactly when the packages are loadable and each has a record of a Docker or OCI image manifest |
| `AirgapPipeline.ReachableContentArrives` | cmd/kubepkg/export.go:67-151 | resolve, pack, range and import together: for such packages, all content reachable from their images is in the target afterwards |
| `AirgapPipeline.AllMetasPostOrdered` | cmd/kubepkg/export.go:153-172 | packages resolved for the same platforms stay in post-order when listed together |
| `BlobStorage.BlobPathsApart` | pkg/kubepkg/tgzblobstorage.go:119-125 | different digests have different paths, and no upload path is a blob path |
| `BlobStorage.BlobWriter.constructor` | pkg/kubepkg/tgzblobstorage.go:46-63 | a new upload has an empty file of its own; one step of the machine |
| `BlobStorage.BlobWriter.Write` | pkg/kubepkg/tgzblobstorage.go:78-84 | file and running digest advance together or not at all; a write is one step of the upload machine, whatever other uploads there are |
| `BlobStorage.BlobWriter.Commit` | pkg/kubepkg/tgzblobstorage.go:86-117 | moves the file to the path of its digest, or changes no file: on a mismatch, a failure or a closed writer; one step of the machine |
| `BlobStorage.CommitMeaning` | pkg/kubepkg/tgzblobstorage.go:86-125 | amid any other uploads: the bytes written are stored under their own digest, in place of the upload, exactly when the upload is open, both file operations succeed and the digest is the expected one if any is; otherwise no file changes, and at no time any other file or upload |
| `BlobStorage.StepKeepsInv` | pkg/kubepkg/tgzblobstorage.go:46-117 | no step of any upload breaks content addressing or another upload's file, and a mismatching commit changes no file |
| `BlobStorage.OpenedContentHashes` | pkg/kubepkg/tgzblobstorage.go:18-24 | after any interleaving of uploads, what opens under a digest hashes to it |
| `BlobStorage.StoredContentStays` | pkg/kubepkg/tgzblobstorage.go:114-117 | stored content stays readable and, barring collisions, the same |
| `BlobStorage.PartialReadStoresNothingWrong` | pkg/kubepkg/kubepkg.go:46-79 | wrapping a reader that is closed after any number of bytes stores the blob exactly when those bytes have the digest, and touches no other blob |
| `ProxyCache.ProxyBlobStore.Stat` | pkg/containerregistry/proxy/proxyblobstore.go:75-117 | a local blob always has its size; any size is that of the readable bytes; the store changes at most by the verified remote blob; one step of the cache machine |
| `ProxyCache.ProxyBlobStore.Open` | pkg/containerregistry/proxy/proxyblobstore.go:131-170 | a local blob can always be opened; otherwise the remote's bytes are read, and only then copied; one step of the machine, whatever other readers there are |
| `ProxyCache.ProxyBlobStore.Get` | pkg/containerregistry/proxy/proxyblobstore.go:119-129 | returns the local bytes if there are any, and otherwise at most the remote's; leaves the store alone |
| `ProxyCache.BlobReader.Read` | pkg/containerregistry/proxy/proxyblobstore.go:131-170 | the copy is always the prefix read so far; one step of the machine |
| `ProxyCache.BlobReader.Close` | pkg/containerregistry/proxy/proxyblobstore.go:131-170 | commits the copy under the digest asked for exactly when it has it, and changes no other blob; one step of the machine |
| `ProxyCache.CacheIsAddressed` | pkg/containerregistry/proxy/proxyblobstore.go:75-170 | over every run, readers abandoned anywhere and the remote dishonest, the store only gains blobs that hash to their key |
| `ProxyCache.CacheIsTransparent` | pkg/containerregistry/proxy/proxyblobstore.go:131-170 | content that is the only preimage of its digest reads the same before and after any run |
| `ProxyCache.TransparentExactly` | pkg/containerregistry/proxy/proxyblobstore.go:131-170 | from an empty cache every run reads the remote's bytes exactly when no proper prefix of them has the digest |
| `Metadata.AnnotateEffect` | pkg/kubeutil/metadata.go:38-60 | the key reads as the value, other keys as before, and the reported change is accurate |
| `Metadata.AppendAnnotate` | pkg/kubeutil/metadata.go:62-77 | the annotation map after appending, by union of the two lists |
| `Metadata.AppendedNames` | pkg/kubeutil/metadata.go:62-77 | the list then names what it named and what was appended, nothing else |
| `ReloadProtocol.HashKeysApart` | pkg/annotation/reload.go:7-20 | no two ConfigMaps or Secrets share a hash key, and none is any of the four reload annotations |
| `ReloadProtocol.OwnPatchIsFiltered` | pkg/kubepkg/controller/reload_configmap.go:27-35 | the controller's own patch never queues the object again |
| `ReloadProtocol.VisitTouchesOwnHashKeyOnly` | pkg/kubepkg/manifest/util.go:27-37 | annotating one object's hash leaves those of all others |
| `ReloadProtocol.VisitKeepsInv` | pkg/kubepkg/controller/reload_configmap.go:70-84 | patching a listed workload, by compare-and-swap on the listed version, keeps the invariant |
| `ReloadProtocol.PatchObjectKeepsInv` | pkg/kubepkg/controller/reload_configmap.go:63-68 | patching the object as it was read keeps the invariant |
| `ReloadProtocol.StepKeepsInv` | pkg/kubepkg/controller/reload_configmap.go:27-87 | every step, of either controller or of others, keeps the invariant, listings being careful: a managed object is queued, in progress with all workloads already visited carrying its hash, or in sync |
| `ReloadProtocol.RunKeepsInv` | pkg/kubepkg/controller/reload_configmap.go:27-87 | so does every run with careful listings |
| `ReloadProtocol.NothingIsMissed` | pkg/kubepkg/controller/reload_secret.go:27-85 | after any run with careful listings a managed object is queued, in progress or in sync, which `ReloadMeaning.SyncedMeaning` spells out |
| `ReloadMeaning.SyncedMeaning` | pkg/kubepkg/controller/reload_secret.go:54-80 | an object is in sync exactly when `reload.octohelm.tech/hash` is the hash of its data, and each workload with its name in the list `reload.octohelm.tech/secret`, or `/configmap`, has that hash on its pod template under `hash.secret.octohelm.tech/` and the name, or `hash.configmap…` |
| `ReloadMeaning.PassReloadsExactly` | pkg/kubepkg/controller/reload_secret.go:42-86 | a pass as in `PassOutcome.PassSyncsExactly` leaves the object and all workloads that so list it with the hash of its data exactly when its listings were fresh |
| `ReloadMeaning.ManagedMeaning` | pkg/kubepkg/controller/reload_secret.go:42-62 | which objects take part, by the literal keys |
| `ReloadMeaning.EditQueuesExactly` | pkg/kubepkg/controller/reload_secret.go:24-38 | an update queues its object exactly when the new one has `reload.octohelm.tech` enabled and not the hash of its data |
| `ReloadMeaning.PatchedObject` | pkg/kubepkg/controller/reload_configmap.go:52-68 | the patch sets the reload hash, and a ConfigMap's app label to its name, and leaves data and all else alone |
| `PodTemplate.PatchReloadAnnotation` | pkg/apis/kubepkg/v1alpha1/deploy.go:81-90 | for every order of the keys the two lists of the template are appended to those of the object, and nothing else |
| `ReloadMeaning.ListsAreCopied` | pkg/apis/kubepkg/v1alpha1/deploy.go:81-90 | a new object gets exactly the two lists of its template |
| `ReloadMeaning.GeneratedLists` | pkg/apis/kubepkg/v1alpha1/deploy.go:260-284 | a workload with the lists of a generated template, if its package keeps its names, is matched for a Secret exactly when a Secret volume of the package resolves to the name, and for a ConfigMap exactly when a ConfigMap volume does |
| `ReloadMeaning.VisitReloadsExactly` | pkg/kubepkg/controller/reload_secret.go:69-80 | visiting such a workload patches it exactly when a volume of that kind has the name and the copy does not carry the hash: the hash is then on the template, and nothing else has changed |
| `StaleLists.LiveListsAreCareful` | pkg/kubepkg/controller/util.go:18-54 | listings of the workloads as they are meet that condition |
| `StaleLists.NewHashesAreCareful` | pkg/kubepkg/controller/util.go:18-54 | so does every listing, however stale, in a run whose edits bring back no hash that a workload has lost or is about to lose |
| `StaleLists.NothingIsMissedByPromise` | pkg/kubepkg/controller/reload_configmap.go:27-87 | nothing is missed by a run that keeps any one of the three promises |
| `PassOutcome.PassSyncsExactly` | pkg/kubepkg/controller/reload_configmap.go:66-87 | a pass that ends, whatever happened since it patched its object, over a managed object not queued again, leaves the object in sync exactly when no copy it was shown carried the hash of a workload that had lost it |
| `PassOutcome.InsideRun` | pkg/kubepkg/controller/util.go:18-54 | during a pass, fresh listings keep all it has dealt with carrying the hash, and a workload lost to a stale one stays lost |
| `StaleLists.StaleListMisses` | pkg/kubepkg/controller/reload_configmap.go:40-87 | a run from a fresh start, with one edit back and one stale listing, ends with nothing to do and the wrong hash on the workload |
| `StaleLists.DishonestEditMisses` | pkg/kubepkg/controller/reload_configmap.go:27-35 | a run from a fresh start up to an edit that brings its own fitting hash, after which nothing is queued and the workload carries the wrong hash |
| `StaleLists.ForcedHashKeepsSyncExactly` | pkg/kubepkg/controller/kubepkg_apply.go:135-171 | a hash forced onto a workload of an idle object goes unnoticed, and keeps the object in sync exactly when it is the present one |
| `ReloadProtocol.EditNoticedIffHonest` | pkg/kubepkg/controller/reload_configmap.go:27-35 | an edit of an idle object is noticed or needs nothing exactly when it brings no fitting reload hash along that the controller did not write |
| `ReloadProtocol.ReadSkipsExactlyUnmanaged` | pkg/kubepkg/controller/reload_configmap.go:43-61 | `Reconcile` gives up at once exactly on objects outside the protocol |
| `ReloadController.Cluster.Visit` | pkg/kubepkg/controller/reload_configmap.go:70-84 | one workload: a step of the protocol, or an error that changes nothing; `ReloadMeaning.VisitReloadsExactly` says what it does to workloads a package generated |
| `ReloadController.Cluster.RangeWorkloads` | pkg/kubepkg/controller/util.go:18-54 | the three lists in turn are a run of the protocol; success means all were visited |
| `ReloadController.Cluster.Reconcile` | pkg/kubepkg/controller/reload_configmap.go:40-87 | is a run of the protocol from handing over the object to finishing or requeueing it; success leaves a managed object in sync, however stale the listings, if no workload has lost the hash of its data |
| `Overlay.GoEqualMeaning` | pkg/util/obj.go:20-57 | `equal` decides agreement outside objects: an object on the left matches anything |
| `Overlay.GoEqualObjectFree` | pkg/util/obj.go:20-57 | it is structural equality when the left operand has no objects |
| `Overlay.MergeObj` | pkg/util/obj.go:130-171 | the loops compute the merge specification, for nil maps too and every key order |
| `OverlayMeaning.MergeMeaning` | pkg/util/obj.go:130-171 | path by path: where objects lead in both documents, two objects are merged with the keys of both; else all of the patch is there, or all of the old value if the patch has nothing or a null over a value |
| `Overlay.DiffObj` | pkg/util/obj.go:59-110 | the loops compute the difference specification, nil when nothing differs |
| `OverlayMeaning.DiffMeaning` | pkg/util/obj.go:59-110 | path by path: the difference has the new value at and inside every path that objects lead to in both documents and where the old one has nothing, or one of the two values is no object and they do not agree as `equal` sees it; objects that are not empty on the way there; and nothing else |
| `OverlayMeaning.ChangesApart` | pkg/util/obj.go:59-110 | no such path lies inside another |
| `OverlayMeaning.DiffNilExactly` | pkg/util/obj.go:59-110 | the difference is nil exactly when there is no such path |
| `Overlay.DiffIsAsGoodAsTheWhole` | pkg/util/obj.go:59-171 | merging the difference equals merging the whole patch exactly when no change is masked by `equal` |
| `Overlay.MergeOfDiff` | pkg/util/obj.go:59-171 | the same for the two functions as called, with nil maps |
| `Overlay.ObjectsOnlyMeetObjectsSuffices` | pkg/util/obj.go:20-57 | nothing is masked when no object occurs in a new value opposite something that is not an object |
| `Overlay.MaskedChange` | pkg/util/obj.go:39 | replacing a number by an object is a change without a difference |
| `Overlay.DiffNilMeansNoChange` | pkg/util/obj.go:59-110 | a patch that changes nothing, with no null over a value, has an empty difference; and when the difference is empty, merging changes nothing exactly when no change is masked |
| `Overlay.NullFreePatchLosesNothing` | pkg/util/obj.go:59-110 | patches without nulls have no null over a value |
| `Overlay.MergeIdempotent` | pkg/util/obj.go:130-171 | merging a patch twice is merging it once, for all inputs |
| `Overlay.MergeKeys` | pkg/util/obj.go:130-171 | the keys are those of both maps, and nulls in the patch delete and change nothing |
| `Overlay.CoversExactly` | pkg/util/obj.go:130-171 | merging gives the patch itself exactly when the patch covers the base |
| `Overlay.DiffReachesTarget` | pkg/util/obj.go:59-171 | merging the difference reaches the target exactly when nothing is masked and the target covers the base |
| `Overlay.MergeAssociative` | pkg/util/obj.go:130-171 | merging is associative exactly when no collision of shapes occurs |
| `Overlay.CollidingShapes` | pkg/util/obj.go:130-171 | a number laid between two objects that do not cover each other is such a collision |
| `Overlay.SameShapeIsAssociative` | pkg/util/obj.go:130-171 | none occurs when at each common path the non-null values are all objects or all not |
| `JsonPointer.UnescapeOfEscape` | nodepkg/codemirror/src/json/JSONPointer.ts:19-25 | unescaping undoes escaping on every string |
| `JsonPointer.EscapeStep` | nodepkg/codemirror/src/json/JSONPointer.ts:23-25 | escaping is character by character: `~` as `~0`, `/` as `~1`, others as they are |
| `JsonPointer.ReverseOrderFails` | nodepkg/codemirror/src/json/JSONPointer.ts:19-21 | with the replacements of unescape swapped it would not |
| `JsonPointer.EscapeOfUnescape` | nodepkg/codemirror/src/json/JSONPointer.ts:19-25 | escaping undoes unescaping exactly on tokens valid under RFC 6901 section 3 |
| `JsonPointer.ParseOfCompile` | nodepkg/codemirror/src/json/JSONPointer.ts:2-17 | parse undoes compile on every list of strings |
| `JsonPointer.CompileInjective` | nodepkg/codemirror/src/json/JSONPointer.ts:12-17 | different paths have different pointers |
| `JsonPointer.CompileOfParse` | nodepkg/codemirror/src/json/JSONPointer.ts:2-17 | compile undoes parse exactly on pointers valid under RFC 6901 section 3 |
| `JsonDiff.MarkMeaning` | nodepkg/codemirror/src/json/JSONDiff.ts:194-226 | a path is marked exactly when objects lead to it in both documents and they differ there without both being objects; "a" is absence in the old, "d" in the new |
| `JsonDiff.MarksArePrefixFree` | nodepkg/codemirror/src/json/JSONDiff.ts:194-226 | no marked path extends another |
| `JsonDiff.UnmarkedMeansEqual` | nodepkg/codemirror/src/json/JSONDiff.ts:194-226 | there are no marks exactly when the documents are equal |
| `JsonDiff.MarksLeadToNew` | nodepkg/codemirror/src/json/JSONDiff.ts:194-226 | applying the marks in any order turns the old document into the new |
| `JsonDiff.NothingOverwritten` | nodepkg/codemirror/src/json/JSONDiff.ts:190-192 | no mark overwrites another in the map keyed by pointers |
| `JsonDiff.JSONDiff.Mark` | nodepkg/codemirror/src/json/JSONDiff.ts:190-192 | stores the mark under the pointer of its path |
| `JsonDiff.JSONDiff.Diff` | nodepkg/codemirror/src/json/JSONDiff.ts:194-226 | the recursion makes exactly the specified marks below its path, each once |
| `JsonDiff.Diff` | nodepkg/codemirror/src/json/JSONDiff.ts:179-185 | the returned map is a diff of the two documents |
| `JsonDiff.StoredDiffLeadsToNew` | nodepkg/codemirror/src/json/JSONDiff.ts:179-226 | the stored entries, parsed back and applied in any order, lead from old to new |
| `JsonDiff.EmptyDiffMeansEqual` | nodepkg/codemirror/src/json/JSONDiff.ts:179-226 | the stored map is empty exactly when the documents are equal |
| `InstallOrder.NewOrdering` | pkg/kubepkg/manifest/kind_order.go:54-64 | the loop maps each listed kind to its index |
| `InstallOrder.StrictTotalExactly` | pkg/kubepkg/manifest/kind_order.go:70-88 | `Less` is a strict total order on a set of manifests exactly when namespaces and unlisted kinds get along in it |
| `InstallOrder.OrderMeaning` | pkg/kubepkg/manifest/kind_order.go:70-88 | listed kinds are in the order of the list and then by name; unlisted ones by kind and name, and after all listed ones but the first, with which they are ordered by name |
| `InstallOrder.ListedKindsSuffice` | pkg/kubepkg/manifest/kind_order.go:70-88 | they do when only listed kinds or no namespaces occur |
| `InstallOrder.CustomKindCycle` | pkg/kubepkg/manifest/kind_order.go:73-80 | a custom resource before a namespace by name closes a cycle with any later listed kind |
| `InstallOrder.SortedIsUnique` | pkg/kubepkg/manifest/kind_order.go:43-47 | two sorted arrangements of the same manifests are the same |
| `InstallOrder.Swap` | pkg/kubepkg/manifest/kind_order.go:68 | exchanges two manifests and nothing else |
| `InstallOrder.SortByKind` | pkg/kubepkg/manifest/kind_order.go:36-47 | rearranges the manifests, contents and all, into order whenever `Less` orders their kinds and names |
| `ManifestCollect.ObjectIdsApart` | pkg/kubepkg/manifest/spec.go:256-262 | of the kinds a package produces, only manifests of the same kind and name share an id |
| `ManifestCollect.Collector.Register` | pkg/kubepkg/manifest/spec.go:24-29 | files the manifest under its id, replacing one already there |
| `ManifestMeaning.VolumesRegisterExactly` | pkg/kubepkg/manifest/spec.go:164-180 | the volumes register exactly the Secrets and ConfigMaps of the package with their data, and the claims with their specification, each under its resolved name |
| `ManifestMeaning.ServicesRegisterExactly` | pkg/kubepkg/manifest/spec.go:55-162 | the services register exactly themselves, their endpoints unless exposed on nodes, and for `#` an ingress if the gateway has rules; endpoints are the service's own address and the gateway's |
| `ManifestMeaning.AccountIsThere` | pkg/kubepkg/manifest/spec.go:182-243 | in every run the table has the account, and a ClusterRole with its rules and a ClusterRoleBinding if it is cluster-scoped, else a Role with its rules and a RoleBinding |
| `ManifestCollect.ManifestsFromSpec` | pkg/kubepkg/manifest/spec.go:245-254 | the table is the one that registering deployer, volumes, services and account in this order leaves, for some order of the maps; fails on an error of the deployer or a malformed gateway |
| `ManifestTable.TableExactly` | pkg/kubepkg/manifest/spec.go:24-53 | a manifest is in the table of some run exactly when it is registered and no later phase registers its kind and name |
| `ManifestTable.TableDeterminedExactly` | pkg/kubepkg/manifest/spec.go:31-180 | the table with its contents is the same for every map order exactly when services that share kind and name agree, and volumes do unless a service replaces them anyway |
| `ManifestTable.NothingIsLostExactly` | pkg/kubepkg/manifest/spec.go:24-53 | every registration is in the table in the end exactly when no two of the same kind and name differ |
| `ManifestTable.SettingsMeetVolume` | pkg/kubepkg/manifest/spec.go:164-180 | settings and a ConfigMap volume named `~` and the package collide: either is what one of two runs leaves |
| `ManifestTable.SettingsOfPMeetVolume` | pkg/kubepkg/manifest/spec.go:164-180 | so with setting `A` and volume `~p` of a package `p` two runs leave different tables |
| `ManifestTable.EndpointsReplaceVolume` | pkg/kubepkg/manifest/spec.go:149-158 | what is under the id of a service's endpoints is from a service in every run |
| `ManifestTable.SettingsKeptExactly` | pkg/kubepkg/manifest/spec.go:164-180 | the ConfigMap of a package is its settings in every run exactly when no other volume or service ends up in it |
| `ManifestExtract.ExtractSorted` | pkg/kubepkg/manifest/kubepkg.go:13-34 | returns all manifests of the table and the namespace in install order, contents and all, or fails as `ManifestsFromSpec` does |
| `ManifestExtract.InstallListIsUnique` | pkg/kubepkg/manifest/kubepkg.go:13-34 | two lists are the same exactly when their tables are |
| `ManifestExtract.InstallListDeterminedExactly` | pkg/kubepkg/manifest/kubepkg.go:13-34 | every run returns the same list, contents and all, exactly when manifests of one phase that share kind and name agree |
| `ManifestExtract.DependenciesFirst` | pkg/kubepkg/manifest/kubepkg.go:13-34 | the namespace comes first, and configuration, secrets, claims, accounts and roles precede every workload |
| `ManifestExtract.ReliedOnFirst` | pkg/kubepkg/manifest/kind_order.go:8-34 | accounts and roles come before their bindings, configuration, claims, accounts, roles and services before workloads, and services and workloads before the ingress |
| `Text.BeforeMeaning` | pkg/kubepkg/manifest/kind_order.go:70-88 | names are in order when the first is shorter or has the smaller character where they first differ |
| `ManifestExtract.KindAfterKind` | pkg/kubepkg/manifest/kind_order.go:8-34 | manifests come kind after kind, in the order of the sixteen kinds that a package installs, and by name within a kind |
| `ReloadHashes.HashWorkload` | pkg/kubepkg/manifest/kubepkg.go:57-79 | the two loops write the hashes of the listed manifests on the pod template |
| `ReloadHashes.ExtractedExactly` | pkg/kubepkg/manifest/kubepkg.go:57-79 | each hash annotation is that of the manifest in the table under a listed name in lower case, or as it was |
| `ReloadHashes.FileIds` | pkg/kubepkg/manifest/kubepkg.go:61-73 | that is, under `configmap.` or `secret.` and the name |
| `ReloadHashes.ControllerChangesExactly` | pkg/kubepkg/manifest/kubepkg.go:57-79 | a reload controller that visits the workload later changes nothing for a ConfigMap with data, and does for a Secret unless its data has the hash of no data |
| `ReloadHashes.UpperCaseIsNotHashed` | pkg/kubepkg/manifest/kubepkg.go:61-73 | the hash of a name with an upper-case letter is not written |
| `ManifestPath.Full` | pkg/kubepkg/manifest/extract.go:100-115 | the loop writes the text of the path |
| `ManifestPath.FullTextMeaning` | pkg/kubepkg/manifest/extract.go:100-115 | each further key is after a dot, unless it comes first, and each index in brackets |
| `ManifestPath.FullTextInjective` | pkg/kubepkg/manifest/extract.go:100-115 | the text determines the path when keys are non-empty and free of `.` and `[` |
| `ManifestPath.DottedKeysCollide` | pkg/kubepkg/manifest/extract.go:100-115 | a dotted key reads like two keys |
| `ManifestPath.Append` | pkg/kubepkg/manifest/extract.go:68-83 | appending keeps the old slice's contents although it may write into the shared array |
| `ManifestWalker.Outermost` | pkg/kubepkg/manifest/extract.go:44-79 | no registered manifest lies inside another |
| `ManifestWalker.ManifestAtMeaning` | pkg/kubepkg/manifest/extract.go:44-98 | what is registered at a path: the processed object there, if it has non-empty strings as `apiVersion` and `kind` and no object on the way has |
| `ManifestWalker.WalkableMeaning` | pkg/kubepkg/manifest/extract.go:32-89 | walking succeeds exactly when everything outside of manifests is an object, a list or a null member of an object, and every outermost manifest is processed without error |
| `ManifestWalker.Walker.WalkObj` | pkg/kubepkg/manifest/extract.go:44-79 | registers the object, or exactly the outermost manifests below it |
| `ManifestWalker.Walker.WalkList` | pkg/kubepkg/manifest/extract.go:81-89 | exactly the outermost manifests of all items |
| `ManifestWalker.Walker.Walk` | pkg/kubepkg/manifest/extract.go:32-42 | reports exactly the outermost manifests, each once under its own path, though siblings share a buffer; fails exactly on an unsupported value or a processing error |
| `ManifestWalker.NothingIsLost` | pkg/kubepkg/manifest/extract.go:44-60 | with plain keys no registration overwrites another |
| `ManifestWalker.TableIsExact` | pkg/kubepkg/manifest/extract.go:16-25 | the table then holds exactly the outermost manifests, each under the text of its path |
| `KubeUtil.Intersection` | pkg/kubeutil/util.go:3-20 | keeps the elements of the second list that occur in the first, in order |
| `KubeUtil.KeptInOrder` | pkg/kubeutil/util.go:3-20 | occurrence by occurrence, in the order of that list |
| `KubeUtil.Union` | pkg/kubeutil/util.go:22-39 | both lists without repeats, first occurrences kept |
| `KubeUtil.DeduplicatedMeaning` | pkg/kubeutil/util.go:22-39 | the union has the elements of both lists and no repeats |
| `KubeUtil.FirstsInOrder` | pkg/kubeutil/util.go:22-39 | a further element goes to the end, unless it is there already |
| `KubeUtil.SortedNamesUnique` | pkg/apis/kubepkg/v1alpha1/deploy.go:119-120 | sorting the keys of a map has one result |
| `Package.VolumesFrom` | pkg/apis/kubepkg/v1alpha1/deploy.go:301-333 | the volumes of the package, with its plain settings as `#` unless it deploys data |
| `ManifestMeaning.VolumesMeaning` | pkg/apis/kubepkg/v1alpha1/deploy.go:301-333 | the volume `#` is an exported ConfigMap with exactly the plain values among the settings, unless the package deploys data; all others are as the package has them |
| `ManifestMeaning.NamesMeaning` | pkg/apis/kubepkg/v1alpha1/deploy.go:173-181 | `#` and the empty name are the package's own, `~` or `/` in front makes a name absolute, and others follow the package's after a dash |
| `PodTemplate.Environment` | pkg/apis/kubepkg/v1alpha1/deploy.go:212-242 | each variable once, sorted, the container's own over the package's references, a reference never with a value |
| `PodMeaning.EnvironmentMeaning` | pkg/apis/kubepkg/v1alpha1/deploy.go:212-242 | the entries are exactly the container's own variables, and the references among the settings that it does not override, in order of their names |
| `PodTemplate.Restriction` | pkg/apis/kubepkg/v1alpha1/deploy.go:141-168 | exactly the architectures among amd64 and arm64 that every container allows; no restriction when there is none |
| `PodMeaning.RestrictionMeaning` | pkg/apis/kubepkg/v1alpha1/deploy.go:141-168 | that is, `amd64` and `arm64` as far as each container without platforms, or with `linux/` and the architecture among them, allows |
| `PodTemplate.PodTemplateSpec.AddToSpecVolume` | pkg/apis/kubepkg/v1alpha1/deploy.go:288-299 | adds the volume unless one has its name |
| `PodTemplate.PodTemplateSpec.ToContainer` | pkg/apis/kubepkg/v1alpha1/deploy.go:183-286 | the container, and what it adds to the pod, for the order in which the volumes were visited |
| `PodTemplate.Partition` | pkg/apis/kubepkg/v1alpha1/deploy.go:102-120 | sorted init and other container names, and the platforms all containers allow |
| `PodTemplate.ToPodTemplateSpec` | pkg/apis/kubepkg/v1alpha1/deploy.go:92-171 | the template of all containers, init containers first; none exactly when there are no containers |
| `PodProofs.PodVolumesWellFormed` | pkg/apis/kubepkg/v1alpha1/deploy.go:259-299 | pod volume names are distinct, are exactly the names asked for, and only the first container adds any |
| `PodProofs.MountsNameVolumes` | pkg/apis/kubepkg/v1alpha1/deploy.go:259-284 | every mount names a pod volume and every container mounts every pod volume |
| `PodMeaning.ContainerMeaning` | pkg/apis/kubepkg/v1alpha1/deploy.go:259-284 | a container mounts exactly the volumes that are not exported, with their paths and modes, and takes its environment from exactly the exported ConfigMaps and Secrets, with their prefixes |
| `PodMeaning.ContainerCounts` | pkg/apis/kubepkg/v1alpha1/deploy.go:259-284 | each of them once |
| `PodMeaning.PodVolumeMeaning` | pkg/apis/kubepkg/v1alpha1/deploy.go:259-299 | every volume of a pod is one of the package's that is not exported, under its resolved name |
| `PodProofs.VolumesDeterminedExactly` | pkg/apis/kubepkg/v1alpha1/deploy.go:259-299 | the pod's volumes do not depend on map order exactly when different volumes never end up with one name |
| `PodProofs.VolumesOfAppCollide` | pkg/apis/kubepkg/v1alpha1/deploy.go:173-181 | volumes `data` and `~app-data` of a package `app` do |
| `PodProofs.ReloadListsExactly` | pkg/apis/kubepkg/v1alpha1/deploy.go:275-277 | in every order of visit the reload annotations list exactly the named ConfigMaps and Secrets used, precisely when no name has a comma and none shares its kind with one of the empty name |
| `PodProofs.LastEmptyNameErases` | pkg/kubeutil/metadata.go:62-77 | a volume of the empty name, visited last in the last container, erases the whole list of its kind |
| `PodProofs.TildeErasesSettings` | pkg/apis/kubepkg/v1alpha1/deploy.go:275-277 | so a package `app` with a ConfigMap volume `~` reads its settings without being reloaded for them |
| `PodProofs.ReferencesAreManifests` | pkg/apis/kubepkg/v1alpha1/deploy.go:259-284 | every ConfigMap, Secret and claim a pod refers to is in the table of manifests of every run |
| `PodProofs.SettingsReachContainers` | pkg/apis/kubepkg/v1alpha1/deploy.go:212-222 | a reference among the settings is a variable of every container without one of its own by the name, and every container reads the package's ConfigMap |
| `PodProofs.SettingsReachManifest` | pkg/apis/kubepkg/v1alpha1/deploy.go:301-333 | the manifest of that ConfigMap has every value among the settings, in every run, when nothing else ends up in it |
| `PodProofs.ContainersPartition` | pkg/apis/kubepkg/v1alpha1/deploy.go:102-135 | each container is generated once, in the same place by every run, among the init containers exactly by its `init-` prefix |
| `EnvRef.EnvVarValueOrFrom.UnmarshalText` | pkg/apis/kubepkg/v1alpha1/container.go:99-152 | sets the fields the text specification says, or panics |
| `EnvRef.PathsRead` | pkg/apis/kubepkg/v1alpha1/container.go:99-152 | text is read as a field or resource when what precedes its last slash begins with that word after `@`; a field also sets the value |
| `EnvRef.KeysRead` | pkg/apis/kubepkg/v1alpha1/container.go:99-152 | likewise as a key of a ConfigMap or Secret, less the marks at its end, which make it optional |
| `EnvRef.ValuesRead` | pkg/apis/kubepkg/v1alpha1/container.go:99-152 | all other text is a value |
| `EnvRef.KeysWrite` | pkg/apis/kubepkg/v1alpha1/container.go:65-97 | keys are written after `@configMap/` or `@secret/`, with a mark when optional |
| `EnvRef.PathsWrite` | pkg/apis/kubepkg/v1alpha1/container.go:65-97 | fields and resources are written after `@field/` and `@resource/`, and come before keys |
| `EnvRef.PanicsExactly` | pkg/apis/kubepkg/v1alpha1/container.go:123-145 | it panics exactly on `@configMap/` or `@secret/` followed by text without a slash |
| `EnvRef.RoundTripExactly` | pkg/apis/kubepkg/v1alpha1/container.go:65-152 | reading back the text of a variable gives its canonical form exactly when its last component has no slash and, for keys, no trailing mark |
| `EnvRef.NormalisesOnce` | pkg/apis/kubepkg/v1alpha1/container.go:65-152 | on every text that can be read, printing and reading again changes nothing more |
| `EnvRef.CanonicalKeepsText` | pkg/apis/kubepkg/v1alpha1/container.go:65-97 | the canonical form has the same text |
| `Authorization.ParseAuthorization` | pkg/auth/authorization.go:8-23 | the loop builds the map of the text, later schemes winning |
| `Authorization.LastSchemeWins` | pkg/auth/authorization.go:8-29 | a scheme has a value exactly when that is in the last token that names the scheme |
| `Authorization.TokenMeaning` | pkg/auth/authorization.go:13-20 | a token is a scheme, or a scheme and its value; one of three words has no value |
| `Authorization.String` | pkg/auth/authorization.go:38-52 | every scheme once, in some order, joined by "; " |
| `Authorization.PrintedParsesBack` | pkg/auth/authorization.go:8-52 | a well-formed map is read back from its text, for every order of its keys |
| `Authorization.PrintingNormalises` | pkg/auth/authorization.go:8-52 | for every string, parsing the printed form of what it parses to gives that again, for every order |
| `FileSize.SizeOf` | pkg/apis/kubepkg/v1alpha1/status.go:50-62 | no step overflows 64 bits, the prefix index is in range, and the size is between one and 1024 of its unit |
| `FileSize.PrefixMeaning` | pkg/apis/kubepkg/v1alpha1/status.go:50-62 | the prefix is `K`, `M`, `G`, `T`, `P` or `E` exactly when the unit is 1024 to the power of one to six |
| `FileSize.OneUnitFits` | pkg/apis/kubepkg/v1alpha1/status.go:50-62 | no other unit would fit |

## Left out

- Clients, networks, files, tar and HTTP framing, progress and logging: content is a map, an archive a sequence of entries, and every call that can fail may do so.
- Hash functions, canonical header keys, the space test, image-reference parsing and manifest processing are parameters, with the properties used stated as predicates (`IsHash`, `IsHasher`, `Suitable`).
- JSON and YAML encoding: a document in an archive is the value it encodes, and the size of an entry is the size of its content.
- Overlay: `util.Diff` and `util.Merge` re-encode typed values around the two functions modelled; `objx.Map` and `map[string]any` are one kind of object; there is no NaN.
- JsonDiff: everything that touches the editor, and lookups through prototypes.
- ImageCollector.CollectImages: the manifests of nested packages are given; that they come from `Extract` again is not modelled.
- Resolution: repositories share their content, so per-repository links and tag placement are not part of this model; `platforms.Format` is taken without path cleaning.
- PackageResolver.ResolvePackage: post-order assumes that configs and layers are not of a manifest media type, without which a record's type does not tell them apart.
- Packing: the panic of `platforms.MustParse` on a malformed platform, and the contents of `index.json`, `manifest.json` and `oci-layout`.
- KubeTarRange.KubeTarRange: the callback is always given, as by every caller.
- Registry.ParsedDigest: the digest grammar is slightly wider than go-digest's, which only adds inputs.
- KubeTarRange.LocalRegistry.EachBlob: a manifest counts as present once its blob is, since importing the blob drains the reader that the manifest import would use; skipping manifest lists, which only uploads do, is not part of this model.
- AirgapImport.IncrementalImportIsComplete: takes the records of a package as truthful about sizes; AirgapPipeline.WalkRecordsHonestly shows that resolving makes them so.
- BlobStorage: writes are all-or-nothing and upload ids fresh.
- ProxyCache: seeking, `Put`, `Create`, `Delete` and serving over HTTP.
- ReloadProtocol: one namespace and a fixed set of workloads, all of which a listing shows. Others write neither hash annotations nor reload lists; the apply controller (`pkg/kubepkg/controller/kubepkg_apply.go:135-171`) does write hash annotations, by forced apply; it is not a step of the machine, and StaleLists.ForcedHashKeepsSyncExactly says what one such write does. A patch is a compare-and-swap on the version read. One that is applied although it reports an error is the step followed by `Fail`.
- ReloadProtocol.EditNoticedIffHonest: is about an idle object that some workload lists, since any other has nothing out of date.
- InstallOrder.SortByKind: `sort.Sort` is modelled by insertion with the same `Less` and `Swap`; an order that is not total leaves Go's result to its algorithm.
- ManifestExtract.ExtractSorted: free-form manifests and their completion, and the label that `Extract` adds. A workload's content is not looked into there; ReloadHashes models the hashes that `Extract` writes on it.
- ReloadHashes.HashWorkload: nil and empty data are told apart only by what their hash may be.
- ManifestCollect.ManifestsFromSpec: what the deployer's `ToResource` returns, the specification of a service, and what the ingress gateway makes of it are inputs; errors of a claim's specification.
- ManifestWalker: keys are visited in any order, which covers the sorted one; how far a slice grows on `append` is arbitrary.
- PodTemplate: image, command, probe, resource, security and port fields, which are copied; a mount's propagation mode.
- EnvRef: only the fields of a reference that its text keeps.
- FileSize.SizeOf: the rounding to one digit, which is `fmt`'s, and negative sizes, which print as bytes.
- CUE schemas, cryptography, agents, dashboards, the user interface and generated code.
