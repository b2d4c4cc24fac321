/**
  Resolution of a user-supplied package key (a metadata type name or a folder
  name) to the Salesforce XML type name, against the registry of metadata
  types the plugin ships (`lib/metadata.json`, taken here as a parameter).
*/
module Metadata {
  import opened Wrappers
  import opened Strings

  /** One registry entry: its XML type name and, when it has one, the folder its members live in. */
  datatype Entry = Entry(xmlType: Option<string>, folder: Option<string>)

  /** The registry: its keys in `Object.keys` order, and the entry under each key. */
  datatype Registry = Registry(keys: seq<string>, entries: map<string, Entry>)

  /** JavaScript truthiness of a possibly missing string. */
  predicate Truthy(v: Option<string>) {
    v.Some? && v.value != ""
  }

  /** The plural keys that the folder scan redirects to a singular registry entry. */
  function AliasOf(key: string): Option<string> {
    if key == "documents" then Some("document")
    else if key == "emails" then Some("email")
    else if key == "reports" then Some("report")
    else if key == "dashboards" then Some("dashboard")
    else None
  }

  /** The registry's key list holds exactly the entries' keys, once each. */
  predicate WellFormed(reg: Registry) {
    && (forall i :: 0 <= i < |reg.keys| ==> reg.keys[i] in reg.entries)
    && (forall k :: k in reg.entries ==> k in reg.keys)
    && (forall i, j :: 0 <= i < j < |reg.keys| ==> reg.keys[i] != reg.keys[j])
  }

  /**
    What looking up the lower-cased `key` demands: a well-formed registry
    and, for a plural alias, the singular entry that the alias branch
    dereferences.
  */
  predicate CanLookup(reg: Registry, key: string) {
    WellFormed(reg) && (AliasOf(key).Some? ==> AliasOf(key).value in reg.entries)
  }

  /** The entry under `mk` has a string folder equal to `key` once lower-cased. */
  predicate FolderMatches(reg: Registry, key: string, mk: string)
    requires mk in reg.entries
  {
    var folder := reg.entries[mk].folder;
    folder.Some? && Lower(folder.value) == key
  }

  /** One iteration of the folder scan over the registry key `mk`. */
  function ScanStep(reg: Registry, key: string, typeName: Option<string>, mk: string): Option<string>
    requires CanLookup(reg, key) && mk in reg.entries
  {
    if FolderMatches(reg, key, mk) then reg.entries[mk].xmlType
    else if AliasOf(key).Some? then reg.entries[AliasOf(key).value].xmlType
    else typeName
  }

  /** The folder scan over the keys `ks`, starting from an undefined type name. */
  function Scan(reg: Registry, key: string, ks: seq<string>): Option<string>
    requires CanLookup(reg, key)
    requires forall i :: 0 <= i < |ks| ==> ks[i] in reg.entries
  {
    if ks == [] then None
    else ScanStep(reg, key, Scan(reg, key, ks[..|ks| - 1]), ks[|ks| - 1])
  }

  /** The registry holds `key` itself with a truthy XML type. */
  predicate ExactHit(reg: Registry, key: string) {
    key in reg.entries && Truthy(reg.entries[key].xmlType)
  }

  /** `lookupMetadata(key)`: the exact key first, otherwise the folder scan. */
  function Lookup(reg: Registry, rawKey: string): Option<string>
    requires CanLookup(reg, Lower(rawKey))
  {
    var key := Lower(rawKey);
    if ExactHit(reg, key) then reg.entries[key].xmlType
    else Scan(reg, key, reg.keys)
  }

  /** `lookupMetadata` as the source runs it: a loop that overwrites `typeName` once per registry key. */
  method LookupMetadata(reg: Registry, rawKey: string) returns (typeName: Option<string>)
    requires CanLookup(reg, Lower(rawKey))
    ensures typeName == Lookup(reg, rawKey)
    ensures ExactHit(reg, Lower(rawKey)) ==> typeName == reg.entries[Lower(rawKey)].xmlType
  {
    var key := Lower(rawKey);
    typeName := None;
    if key in reg.entries && reg.entries[key].xmlType.Some? && reg.entries[key].xmlType.value != "" {
      typeName := reg.entries[key].xmlType;
    } else {
      for i := 0 to |reg.keys|
        invariant typeName == Scan(reg, key, reg.keys[..i])
      {
        assert reg.keys[..i + 1][..i] == reg.keys[..i];
        var mk := reg.keys[i];
        var folder := reg.entries[mk].folder;
        if folder.Some? && Lower(folder.value) == key {
          typeName := reg.entries[mk].xmlType;
        } else if key == "documents" {
          typeName := reg.entries["document"].xmlType;
        } else if key == "emails" {
          typeName := reg.entries["email"].xmlType;
        } else if key == "reports" {
          typeName := reg.entries["report"].xmlType;
        } else if key == "dashboards" {
          typeName := reg.entries["dashboard"].xmlType;
        }
      }
      assert reg.keys[..|reg.keys|] == reg.keys;
    }
  }

  // ---------------------------------------------------------------------------
  // What the lookup returns
  // ---------------------------------------------------------------------------

  /** For a key that is not a plural alias, a scan in which no folder matches leaves the type undefined. */
  lemma {:induction false} ScanNoMatch(reg: Registry, key: string, ks: seq<string>)
    requires CanLookup(reg, key) && AliasOf(key).None?
    requires forall i :: 0 <= i < |ks| ==> ks[i] in reg.entries
    requires forall i :: 0 <= i < |ks| ==> !FolderMatches(reg, key, ks[i])
    ensures Scan(reg, key, ks) == None
  {
    if ks != [] {
      var init := ks[..|ks| - 1];
      assert forall i :: 0 <= i < |init| ==> init[i] == ks[i];
      ScanNoMatch(reg, key, init);
    }
  }

  /**
    For a key that is not a plural alias, the folder scan returns the XML
    type of the LAST entry whose folder matches: later assignments win.
  */
  lemma {:induction false} ScanLastMatch(reg: Registry, key: string, ks: seq<string>, i: nat)
    requires CanLookup(reg, key) && AliasOf(key).None?
    requires forall j :: 0 <= j < |ks| ==> ks[j] in reg.entries
    requires i < |ks| && FolderMatches(reg, key, ks[i])
    requires forall j :: i < j < |ks| ==> !FolderMatches(reg, key, ks[j])
    ensures Scan(reg, key, ks) == reg.entries[ks[i]].xmlType
  {
    if i < |ks| - 1 {
      var init := ks[..|ks| - 1];
      assert forall j :: 0 <= j < |init| ==> init[j] == ks[j];
      ScanLastMatch(reg, key, init, i);
    }
  }

  /**
    For a plural alias every visited entry assigns, so the final entry
    decides: its own XML type if its folder matches, the singular entry's
    otherwise.
  */
  lemma ScanAlias(reg: Registry, key: string, ks: seq<string>)
    requires CanLookup(reg, key) && AliasOf(key).Some?
    requires forall i :: 0 <= i < |ks| ==> ks[i] in reg.entries
    requires ks != []
    ensures Scan(reg, key, ks) ==
      if FolderMatches(reg, key, ks[|ks| - 1]) then reg.entries[ks[|ks| - 1]].xmlType
      else reg.entries[AliasOf(key).value].xmlType
  {
  }

  /** An exact key with a truthy XML type is answered without any folder scan. */
  lemma LookupExact(reg: Registry, rawKey: string)
    requires CanLookup(reg, Lower(rawKey)) && ExactHit(reg, Lower(rawKey))
    ensures Lookup(reg, rawKey) == reg.entries[Lower(rawKey)].xmlType
    ensures Truthy(Lookup(reg, rawKey))
  {
  }

  /** Keys that differ only in ASCII case resolve alike. */
  lemma LookupIgnoresCase(reg: Registry, rawKey: string)
    requires CanLookup(reg, Lower(rawKey))
    ensures Lookup(reg, Lower(rawKey)) == Lookup(reg, rawKey)
  {
    LowerNormalises(rawKey);
  }

  /**
    The whole lookup for a key that is neither an exact hit nor an alias:
    the last folder match decides, and without one the result is undefined.
  */
  lemma LookupByFolder(reg: Registry, rawKey: string, i: nat)
    requires CanLookup(reg, Lower(rawKey))
    requires !ExactHit(reg, Lower(rawKey)) && AliasOf(Lower(rawKey)).None?
    requires i < |reg.keys| && FolderMatches(reg, Lower(rawKey), reg.keys[i])
    requires forall j :: i < j < |reg.keys| ==> !FolderMatches(reg, Lower(rawKey), reg.keys[j])
    ensures Lookup(reg, rawKey) == reg.entries[reg.keys[i]].xmlType
  {
    ScanLastMatch(reg, Lower(rawKey), reg.keys, i);
  }

  /** A key that is neither an exact hit, an alias, nor any entry's folder is undefined. */
  lemma LookupNotFound(reg: Registry, rawKey: string)
    requires CanLookup(reg, Lower(rawKey))
    requires !ExactHit(reg, Lower(rawKey)) && AliasOf(Lower(rawKey)).None?
    requires forall mk :: mk in reg.entries ==> !FolderMatches(reg, Lower(rawKey), mk)
    ensures Lookup(reg, rawKey) == None
  {
    ScanNoMatch(reg, Lower(rawKey), reg.keys);
  }

  /** An empty registry resolves nothing. */
  lemma LookupEmptyRegistry(reg: Registry, rawKey: string)
    requires CanLookup(reg, Lower(rawKey)) && reg.keys == []
    ensures Lookup(reg, rawKey) == None
  {
  }
}
