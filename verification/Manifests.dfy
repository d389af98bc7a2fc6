/**
 What the platform reads from a plugin manifest and from the host it is resolved against
 (packages/plugin-sdk/src/manifest.ts:364-440, packages/plugin-runtime/src/resolver.ts:36-47).
 */
module Manifests {
  import opened Results

  type PluginId = string

  datatype Dependency = Dependency(id: PluginId, version: string, optional: bool)

  datatype Conflict = Conflict(id: PluginId, version: string)

  datatype SharedRuntime = SharedRuntime(react: string, reactDom: string, router: string, carbonReact: string, pluginSdk: string)

  datatype Migration = Migration(image: string, fromSchema: nat, toSchema: nat, rollbackThrough: nat)

  datatype Manifest = Manifest(
    id: PluginId,
    version: string,
    publisher: PluginId,
    hostRange: string,
    sdkRange: string,
    frontendProtocol: Option<nat>,
    backendProtocol: Option<nat>,
    requiredSlots: seq<string>,
    frontend: Option<SharedRuntime>,
    hasBackend: bool,
    migration: Option<Migration>,
    requiredPermissions: seq<string>,
    optionalPermissions: seq<string>,
    egressPolicy: string,
    dependencies: seq<Dependency>,
    conflicts: seq<Conflict>)

  datatype Host = Host(
    hostVersion: string,
    supportedSdkVersions: set<string>,
    frontendProtocol: nat,
    backendProtocol: nat,
    sharedFrontend: SharedRuntime,
    slots: set<string>,
    permissions: set<string>,
    egressPolicies: set<string>,
    trustedPublishers: set<PluginId>)

  /** The semver library: which ranges parse, and which versions a range admits (prereleases included). */
  datatype Semver = Semver(validRange: string -> bool, satisfies: (string, string) -> bool)
  {
    function RangeMatches(version: string, range: string): Option<bool>
    {
      if !validRange(range) then None else Some(satisfies(version, range))
    }
  }
}
