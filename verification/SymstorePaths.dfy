/**
Paths on a SymStore symbol server: the printer for an object and the parser for a path.  Base
names are the validated ones: ASCII, and without the separator.  Code ids are canonical lower-case
hex strings; debug ids are a UUID of 32 hex digits and an appendix.
*/
module SymstorePaths {
  import opened Common
  import opened Strings

  datatype FileType = ElfCode | ElfDebug | MachCode | MachDebug | Pdb | PortablePdb | Pe

  datatype ObjectType = Elf | Macho | PeObject | PeDotnet | Wasm | Unknown

  predicate IsLowerHex(c: char) { '0' <= c <= '9' || 'a' <= c <= 'f' }

  predicate AllLowerHex(s: string) { forall i :: 0 <= i < |s| ==> IsLowerHex(s[i]) }

  type CodeId = s: string | AllLowerHex(s)

  /** The `simple` form: 32 lower-case hex digits. */
  type Uuid = s: string | |s| == 32 && AllLowerHex(s)
    witness "00000000000000000000000000000000"

  datatype DebugId = DebugId(uuid: Uuid, appendix: u32)

  predicate IsBaseName(s: string) { forall i :: 0 <= i < |s| ==> s[i] != '/' && s[i] < 128 as char }

  type BaseName = s: string | IsBaseName(s)

  datatype ObjectId = ObjectId(
    codeId: Option<CodeId>,
    codeFile: Option<BaseName>,
    debugId: Option<DebugId>,
    debugFile: Option<BaseName>,
    objectType: ObjectType)

  // ---------------------------------------------------------------------------------------------
  // Hex numbers

  function HexDigit(d: nat): (c: char)
    requires d < 16
    ensures IsLowerHex(c)
  {
    if d < 10 then '0' + d as char else 'a' + (d - 10) as char
  }

  function HexValue(c: char): Option<nat> {
    var l := LowerChar(c);
    if '0' <= l <= '9' then Some((l - '0') as nat)
    else if 'a' <= l <= 'f' then Some((l - 'a') as nat + 10)
    else None
  }

  /** Without leading zeros. */
  function ToHex(n: nat): (s: string)
    ensures |s| >= 1 && AllLowerHex(s)
  {
    if n < 16 then [HexDigit(n)] else ToHex(n / 16) + [HexDigit(n % 16)]
  }

  function FromHex(s: string): Option<nat> {
    if s == [] then Some(0)
    else
      match FromHex(s[..|s| - 1])
      case None => None
      case Some(high) =>
        match HexValue(s[|s| - 1])
        case None => None
        case Some(digit) => Some(16 * high + digit)
  }

  lemma {:induction false} FromHexOfToHex(n: nat, s: string)
    requires ToLower(s) == ToHex(n)
    ensures FromHex(s) == Some(n)
  {
    var k := |s| - 1;
    assert |s| == |ToHex(n)|;
    assert LowerChar(s[k]) == ToHex(n)[k];
    if n < 16 {
      assert s[..k] == [];
    } else {
      assert ToHex(n)[..k] == ToHex(n / 16);
      assert ToLower(s[..k]) == ToLower(s)[..k];
      FromHexOfToHex(n / 16, s[..k]);
    }
  }

  /** A debug id in breakpad form: 32 hex digits and a non-empty hex appendix of 32 bits. */
  function FromBreakpad(s: string): Option<DebugId> {
    if |s| <= 32 || !AllLowerHex(ToLower(s[..32])) then None
    else
      match FromHex(s[32..])
      case None => None
      case Some(appendix) => if appendix < U32_LIMIT then Some(DebugId(ToLower(s[..32]), appendix)) else None
  }

  lemma BreakpadRoundTrip(s: string, id: DebugId)
    requires ToLower(s) == id.uuid + ToHex(id.appendix)
    ensures FromBreakpad(s) == Some(id)
  {
    assert |s| == 32 + |ToHex(id.appendix)|;
    assert ToLower(s[..32]) == ToLower(s)[..32] == id.uuid;
    assert ToLower(s[32..]) == ToLower(s)[32..] == ToHex(id.appendix);
    FromHexOfToHex(id.appendix, s[32..]);
  }

  // ---------------------------------------------------------------------------------------------
  // The printer

  function Cased(name: BaseName, ssqp: bool): (r: BaseName)
    ensures ToLower(r) == ToLower(name)
  {
    if ssqp then
      ToLowerIdempotent(name);
      ToLower(name)
    else name
  }

  function GetMachUuid(id: ObjectId): Option<Uuid> {
    match id.codeId
    case Some(codeId) => if |codeId| == 32 then Some(codeId) else None
    case None => match id.debugId { case Some(debugId) => Some(debugId.uuid) case None => None }
  }

  function ThreeParts(name: string, signature: string): string {
    name + "/" + signature + "/" + name
  }

  /** The appendix that is printed: .NET files use the maximum instead of their own. */
  function PrintedAppendix(id: ObjectId, debugId: DebugId): u32 {
    if id.objectType.PeDotnet? then U32_LIMIT - 1 else debugId.appendix
  }

  function PdbSignature(uuid: Uuid, appendix: u32, ssqp: bool): string {
    if ssqp then uuid + ToUpper(ToHex(appendix)) else ToUpper(uuid) + ToHex(appendix)
  }

  function GetPdbSymstorePath(id: ObjectId, ssqp: bool): Option<string> {
    match (id.debugFile, id.debugId)
    case (Some(debugFile), Some(debugId)) =>
      Some(ThreeParts(Cased(debugFile, ssqp), PdbSignature(debugId.uuid, PrintedAppendix(id, debugId), ssqp)))
    case _ => None
  }

  function PeSignature(codeId: CodeId, ssqp: bool): Option<string> {
    if ssqp then Some(codeId)
    else if |codeId| < 8 then None
    else Some(ToUpper(codeId[..8]) + codeId[8..])
  }

  function GetPeSymstorePath(id: ObjectId, ssqp: bool): Option<string> {
    match (id.codeFile, id.codeId)
    case (Some(codeFile), Some(codeId)) =>
      (match PeSignature(codeId, ssqp)
       case Some(signature) => Some(ThreeParts(Cased(codeFile, ssqp), signature))
       case None => None)
    case _ => None
  }

  function GetSymstorePath(fileType: FileType, id: ObjectId, ssqp: bool): Option<string> {
    match fileType
    case ElfCode =>
      (match (id.codeId, id.codeFile)
       case (Some(codeId), Some(codeFile)) => Some(ThreeParts(Cased(codeFile, ssqp), "elf-buildid-" + codeId))
       case _ => None)
    case ElfDebug =>
      (match id.codeId
       case Some(codeId) => Some(ThreeParts("_.debug", "elf-buildid-sym-" + codeId))
       case None => None)
    case MachCode =>
      (match (id.codeFile, GetMachUuid(id))
       case (Some(codeFile), Some(uuid)) => Some(ThreeParts(Cased(codeFile, ssqp), "mach-uuid-" + uuid))
       case _ => None)
    case MachDebug =>
      (match GetMachUuid(id)
       case Some(uuid) => Some(ThreeParts("_.dwarf", "mach-uuid-sym-" + uuid))
       case None => None)
    case Pdb | PortablePdb => GetPdbSymstorePath(id, ssqp)
    case Pe => GetPeSymstorePath(id, ssqp)
  }

  predicate NoUpper(s: string) { forall i :: 0 <= i < |s| ==> !IsUpper(s[i]) }

  predicate NoLower(s: string) { forall i :: 0 <= i < |s| ==> !IsLower(s[i]) }

  /** SSQP asks for names in lower case; otherwise a name is printed as it is. */
  predicate IsCasedName(printed: string, name: BaseName, ssqp: bool) {
    ToLower(printed) == ToLower(name) && if ssqp then NoUpper(printed) else printed == name
  }

  /** The same hex digits, with all letters in one case. */
  predicate IsCasedHex(printed: string, hex: string, upper: bool) {
    ToLower(printed) == hex && if upper then NoLower(printed) else NoUpper(printed)
  }

  lemma CasedName(name: BaseName, ssqp: bool)
    ensures IsCasedName(Cased(name, ssqp), name, ssqp)
  {
  }

  lemma CasedHex(hex: string)
    requires AllLowerHex(hex)
    ensures IsCasedHex(hex, hex, false) && IsCasedHex(ToUpper(hex), hex, true)
  {
    LowerHexIsLower(hex);
    ToLowerIdempotent(hex);
  }

  /** The path of a PDB is its name, the UUID with the appendix, and the name again.  SSQP prints the
      UUID in lower and the appendix in upper case, the other servers print them the other way
      round; the appendix of a .NET file is all ones. */
  lemma PdbPathIs(fileType: FileType, id: ObjectId, ssqp: bool) returns (name: string, uuid: string, appendix: string)
    requires (fileType.Pdb? || fileType.PortablePdb?) && id.debugFile.Some? && id.debugId.Some?
    ensures GetSymstorePath(fileType, id, ssqp) == Some(name + "/" + (uuid + appendix) + "/" + name)
    ensures IsCasedName(name, id.debugFile.value, ssqp) && IsCasedHex(uuid, id.debugId.value.uuid, !ssqp)
    ensures IsCasedHex(appendix,
      ToHex(if id.objectType.PeDotnet? then 0xFFFF_FFFF else id.debugId.value.appendix), ssqp)
  {
    var hex := ToHex(PrintedAppendix(id, id.debugId.value));
    name := Cased(id.debugFile.value, ssqp);
    CasedName(id.debugFile.value, ssqp);
    CasedHex(id.debugId.value.uuid);
    CasedHex(hex);
    uuid, appendix := id.debugId.value.uuid, ToUpper(hex);
    if !ssqp {
      uuid, appendix := ToUpper(id.debugId.value.uuid), hex;
    }
  }

  /** The path of a PE is its name, the timestamp with the image size, and the name again.  SSQP
      prints both numbers in lower case, the other servers print the timestamp in upper case. */
  lemma PePathIs(id: ObjectId, ssqp: bool) returns (name: string, timestamp: string, size: string)
    requires id.codeFile.Some? && id.codeId.Some? && (ssqp || |id.codeId.value| >= 8)
    ensures GetSymstorePath(Pe, id, ssqp) == Some(name + "/" + (timestamp + size) + "/" + name)
    ensures IsCasedName(name, id.codeFile.value, ssqp)
    ensures var codeId := id.codeId.value; var k := if |codeId| < 8 then |codeId| else 8;
      IsCasedHex(timestamp, codeId[..k], !ssqp) && IsCasedHex(size, codeId[k..], false)
  {
    var codeId := id.codeId.value;
    name := Cased(id.codeFile.value, ssqp);
    CasedName(id.codeFile.value, ssqp);
    var k := if |codeId| < 8 then |codeId| else 8;
    CasedHex(codeId[..k]);
    CasedHex(codeId[k..]);
    timestamp, size := codeId[..k], codeId[k..];
    assert codeId == timestamp + size;
    if !ssqp {
      timestamp := ToUpper(timestamp);
    }
  }

  /** The build id of an ELF file; the UUID of a Mach file is its code id, or without one its debug
      id's. */
  function UnixKey(fileType: FileType, id: ObjectId): string
    requires if fileType.ElfCode? || fileType.ElfDebug? then id.codeId.Some? else id.codeId.Some? || id.debugId.Some?
  {
    if id.codeId.Some? then id.codeId.value else id.debugId.value.uuid
  }

  /** The path of an ELF or Mach file is keyed by the build id or the UUID as it is, whatever the
      casing; code files are listed under their name, debug files under a fixed one. */
  lemma UnixPathIs(fileType: FileType, id: ObjectId, ssqp: bool) returns (name: string, signature: string)
    requires fileType.ElfCode? || fileType.ElfDebug? || fileType.MachCode? || fileType.MachDebug?
    requires GetSymstorePath(fileType, id, ssqp).Some?
    ensures GetSymstorePath(fileType, id, ssqp) == Some(name + "/" + signature + "/" + name)
    ensures match fileType
      case ElfCode | MachCode => IsCasedName(name, id.codeFile.value, ssqp)
      case ElfDebug => name == "_.debug"
      case _ => name == "_.dwarf"
    ensures signature == (match fileType
      case ElfCode => "elf-buildid-"
      case ElfDebug => "elf-buildid-sym-"
      case MachCode => "mach-uuid-"
      case _ => "mach-uuid-sym-") + UnixKey(fileType, id)
  {
    match fileType
    case ElfCode =>
      name, signature := Cased(id.codeFile.value, ssqp), "elf-buildid-" + id.codeId.value;
      CasedName(id.codeFile.value, ssqp);
    case ElfDebug =>
      name, signature := "_.debug", "elf-buildid-sym-" + id.codeId.value;
    case MachCode =>
      name, signature := Cased(id.codeFile.value, ssqp), "mach-uuid-" + UnixKey(fileType, id);
      CasedName(id.codeFile.value, ssqp);
    case MachDebug =>
      name, signature := "_.dwarf", "mach-uuid-sym-" + UnixKey(fileType, id);
  }

  /** There is a path exactly if the object has what it is made of; only the casing that splits the
      code id of a PE needs it to hold a timestamp. */
  lemma PathExistsIff(fileType: FileType, id: ObjectId, ssqp: bool)
    ensures GetSymstorePath(fileType, id, ssqp).Some? <==>
      match fileType
      case ElfCode => id.codeId.Some? && id.codeFile.Some?
      case ElfDebug => id.codeId.Some?
      case MachCode => id.codeFile.Some? && if id.codeId.Some? then |id.codeId.value| == 32 else id.debugId.Some?
      case MachDebug => if id.codeId.Some? then |id.codeId.value| == 32 else id.debugId.Some?
      case Pdb | PortablePdb => id.debugFile.Some? && id.debugId.Some?
      case Pe => id.codeFile.Some? && id.codeId.Some? && (ssqp || |id.codeId.value| >= 8)
  {
  }

  // ---------------------------------------------------------------------------------------------
  // The parser

  /** The identifier a path is keyed by. */
  datatype Key = ByCodeId(codeId: string) | ByDebugId(debugId: DebugId)

  datatype ParsedPath = ParsedPath(fileType: FileType, key: Key, fileName: string, objectType: ObjectType)

  function ParseParts(leading: string, signature: string, trailing: string): Option<ParsedPath> {
    var leadingLower := ToLower(leading);
    var signatureLower := ToLower(signature);
    if leadingLower != ToLower(trailing) then None
    else if EndsWith(leadingLower, ".debug") && StartsWith(signatureLower, "elf-buildid-sym-") then
      Some(ParsedPath(ElfDebug, ByCodeId(ToLower(signature[16..])), leading, Elf))
    else if StartsWith(signatureLower, "elf-buildid-") then
      Some(ParsedPath(ElfCode, ByCodeId(ToLower(signature[12..])), leading, Elf))
    else if EndsWith(leadingLower, ".dwarf") && StartsWith(signatureLower, "mach-uuid-sym-") then
      Some(ParsedPath(MachDebug, ByCodeId(ToLower(signature[14..])), leading, Macho))
    else if StartsWith(signatureLower, "mach-uuid-") then
      Some(ParsedPath(MachCode, ByCodeId(ToLower(signature[10..])), leading, Macho))
    else if EndsWith(leadingLower, ".pdb") then
      match FromBreakpad(signature)
      case None => None
      case Some(debugId) => Some(ParsedPath(Pdb, ByDebugId(debugId), leading, PeObject))
    else
      Some(ParsedPath(Pe, ByCodeId(ToLower(signature)), leading, PeObject))
  }

  function ParseSymstorePath(path: string): Option<ParsedPath> {
    match SplitOnce(path, '/')
    case None => None
    case Some((leading, rest)) =>
      match SplitOnce(rest, '/')
      case None => None
      case Some((signature, trailing)) => ParseParts(leading, signature, trailing)
  }

  lemma ParseOfThreeParts(name: string, signature: string)
    requires '/' !in name && '/' !in signature
    ensures ParseSymstorePath(ThreeParts(name, signature)) == ParseParts(name, signature, name)
  {
    assert ThreeParts(name, signature) == name + ['/'] + (signature + ['/'] + name);
    SplitOnceAt(name, '/', signature + ['/'] + name);
    SplitOnceAt(signature, '/', name);
  }

  // ---------------------------------------------------------------------------------------------
  // The round trip

  function LastPart(fileType: FileType, id: ObjectId): string {
    match fileType
    case ElfCode | MachCode | Pe => (match id.codeFile case Some(f) => f case None => "")
    case Pdb | PortablePdb => (match id.debugFile case Some(f) => f case None => "")
    case ElfDebug => "_.debug"
    case MachDebug => "_.dwarf"
  }

  /** The identifier the printer keys the path by. */
  function PrintedKey(fileType: FileType, id: ObjectId): Option<Key> {
    match fileType
    case ElfCode | ElfDebug | Pe => (match id.codeId case Some(c) => Some(ByCodeId(c)) case None => None)
    case MachCode | MachDebug => (match GetMachUuid(id) case Some(u) => Some(ByCodeId(u)) case None => None)
    case Pdb | PortablePdb => (match id.debugId case Some(d) => Some(ByDebugId(d)) case None => None)
  }

  /** What a caller can check before printing: the parser takes exactly the names ending in `.pdb`
      for PDBs, knows no portable PDBs, and the path of a .NET file does not hold its appendix. */
  predicate Recoverable(fileType: FileType, id: ObjectId) {
    match fileType
    case ElfCode | ElfDebug | MachCode | MachDebug => true
    case Pdb =>
      && id.debugFile.Some? && EndsWith(ToLower(id.debugFile.value), ".pdb")
      && id.debugId.Some? && PrintedAppendix(id, id.debugId.value) == id.debugId.value.appendix
    case PortablePdb => false
    case Pe => id.codeFile.Some? && !EndsWith(ToLower(id.codeFile.value), ".pdb")
  }

  lemma LowerHexIsLower(s: string)
    requires AllLowerHex(s)
    ensures ToLower(s) == s && '/' !in s
  {
  }

  /** No hex string, in any case, looks like the start of an ELF or Mach signature. */
  lemma HexSignature(s: string)
    requires AllLowerHex(ToLower(s))
    ensures '/' !in s
    ensures !StartsWith(ToLower(s), "elf-buildid-") && !StartsWith(ToLower(s), "elf-buildid-sym-")
    ensures !StartsWith(ToLower(s), "mach-uuid-") && !StartsWith(ToLower(s), "mach-uuid-sym-")
  {
    forall i | 0 <= i < |s| ensures s[i] != '/' {
      assert IsLowerHex(ToLower(s)[i]);
    }
    if |s| >= 2 {
      assert IsLowerHex(ToLower(s)[0]) && IsLowerHex(ToLower(s)[1]);
      assert "elf-buildid-"[1] == 'l' && "elf-buildid-sym-"[1] == 'l';
      assert "mach-uuid-"[0] == 'm' && "mach-uuid-sym-"[0] == 'm';
    }
  }

  /** A signature made of a lower-case prefix and hex digits. */
  lemma PrefixedSignature(prefix: string, hex: string, signature: string)
    requires signature == prefix + hex && ToLower(prefix) == prefix && AllLowerHex(hex)
    ensures ToLower(signature) == signature && StartsWith(ToLower(signature), prefix)
    ensures ToLower(signature[|prefix|..]) == hex
  {
    ToLowerConcat(prefix, hex);
    LowerHexIsLower(hex);
  }

  lemma ElfRoundTrip(name: string, codeId: CodeId)
    ensures ParseParts(name, "elf-buildid-" + codeId, name) == Some(ParsedPath(ElfCode, ByCodeId(codeId), name, Elf))
    ensures ParseParts("_.debug", "elf-buildid-sym-" + codeId, "_.debug")
         == Some(ParsedPath(ElfDebug, ByCodeId(codeId), "_.debug", Elf))
  {
    var code, debug := "elf-buildid-" + codeId, "elf-buildid-sym-" + codeId;
    PrefixedSignature("elf-buildid-", codeId, code);
    PrefixedSignature("elf-buildid-sym-", codeId, debug);
    assert !StartsWith(code, "elf-buildid-sym-") by {
      if |codeId| > 0 {
        assert code[12] == codeId[0] && IsLowerHex(codeId[0]);
        assert "elf-buildid-sym-"[12] == 's';
      }
    }
    assert ToLower("_.debug") == "_.debug" && "_.debug"[1..] == ".debug";
  }

  lemma NoElfPrefix(signature: string)
    requires signature != [] && signature[0] == 'm'
    ensures !StartsWith(signature, "elf-buildid-") && !StartsWith(signature, "elf-buildid-sym-")
  {
    assert "elf-buildid-"[0] == 'e' && "elf-buildid-sym-"[0] == 'e';
  }

  lemma MachCodeRoundTrip(name: string, uuid: Uuid)
    ensures ParseParts(name, "mach-uuid-" + uuid, name) == Some(ParsedPath(MachCode, ByCodeId(uuid), name, Macho))
  {
    var signature := "mach-uuid-" + uuid;
    PrefixedSignature("mach-uuid-", uuid, signature);
    NoElfPrefix(signature);
    assert !StartsWith(signature, "mach-uuid-sym-") by {
      assert signature[10] == uuid[0] && IsLowerHex(uuid[0]);
      assert "mach-uuid-sym-"[10] == 's';
    }
  }

  lemma MachDebugRoundTrip(uuid: Uuid)
    ensures ParseParts("_.dwarf", "mach-uuid-sym-" + uuid, "_.dwarf")
         == Some(ParsedPath(MachDebug, ByCodeId(uuid), "_.dwarf", Macho))
  {
    var signature := "mach-uuid-sym-" + uuid;
    PrefixedSignature("mach-uuid-sym-", uuid, signature);
    NoElfPrefix(signature);
    assert ToLower("_.dwarf") == "_.dwarf" && "_.dwarf"[1..] == ".dwarf";
  }

  lemma PdbSignatureIsHex(uuid: Uuid, appendix: u32, ssqp: bool)
    ensures ToLower(PdbSignature(uuid, appendix, ssqp)) == uuid + ToHex(appendix)
    ensures AllLowerHex(uuid + ToHex(appendix))
  {
    var hex := ToHex(appendix);
    LowerHexIsLower(uuid);
    LowerHexIsLower(hex);
    ToLowerIdempotent(uuid);
    ToLowerIdempotent(hex);
    ToLowerConcat(uuid, ToUpper(hex));
    ToLowerConcat(ToUpper(uuid), hex);
  }

  lemma PdbRoundTrip(name: string, debugId: DebugId, ssqp: bool)
    ensures var parsed := ParseParts(name, PdbSignature(debugId.uuid, debugId.appendix, ssqp), name);
      if EndsWith(ToLower(name), ".pdb") then parsed == Some(ParsedPath(Pdb, ByDebugId(debugId), name, PeObject))
      else parsed.Some? && parsed.value.fileType == Pe
  {
    var signature := PdbSignature(debugId.uuid, debugId.appendix, ssqp);
    PdbSignatureIsHex(debugId.uuid, debugId.appendix, ssqp);
    HexSignature(signature);
    BreakpadRoundTrip(signature, debugId);
  }

  lemma PeSignatureIsHex(codeId: CodeId, ssqp: bool)
    requires PeSignature(codeId, ssqp).Some?
    ensures ToLower(PeSignature(codeId, ssqp).value) == codeId
  {
    LowerHexIsLower(codeId);
    if !ssqp {
      ToLowerIdempotent(codeId[..8]);
      ToLowerConcat(ToUpper(codeId[..8]), codeId[8..]);
      LowerHexIsLower(codeId[..8]);
      LowerHexIsLower(codeId[8..]);
    }
  }

  lemma PeRoundTrip(name: string, codeId: CodeId, ssqp: bool)
    requires PeSignature(codeId, ssqp).Some?
    ensures var parsed := ParseParts(name, PeSignature(codeId, ssqp).value, name);
      if EndsWith(ToLower(name), ".pdb") then parsed.Some? ==> parsed.value.fileType == Pdb
      else parsed == Some(ParsedPath(Pe, ByCodeId(codeId), name, PeObject))
  {
    PeSignatureIsHex(codeId, ssqp);
    HexSignature(PeSignature(codeId, ssqp).value);
  }

  /** Parsing the printed path gives the file type, the identifier and the name back. */
  predicate Recovered(fileType: FileType, id: ObjectId, ssqp: bool)
    requires GetSymstorePath(fileType, id, ssqp).Some?
  {
    match ParseSymstorePath(GetSymstorePath(fileType, id, ssqp).value)
    case None => false
    case Some(parsed) =>
      && parsed.fileType == fileType
      && Some(parsed.key) == PrintedKey(fileType, id)
      && ToLower(parsed.fileName) == ToLower(LastPart(fileType, id))
  }

  /** What is parsed from a path of three parts. */
  lemma RecoveredAs(fileType: FileType, id: ObjectId, ssqp: bool, name: string, signature: string, parsed: ParsedPath)
    requires GetSymstorePath(fileType, id, ssqp) == Some(ThreeParts(name, signature))
    requires '/' !in name && '/' !in signature && ParseParts(name, signature, name) == Some(parsed)
    requires parsed.fileType == fileType && Some(parsed.key) == PrintedKey(fileType, id)
    requires parsed.fileName == name && ToLower(name) == ToLower(LastPart(fileType, id))
    ensures Recovered(fileType, id, ssqp)
  {
    ParseOfThreeParts(name, signature);
  }

  lemma CodeFilesRecovered(fileType: FileType, id: ObjectId, ssqp: bool)
    requires fileType.ElfCode? || fileType.MachCode?
    requires GetSymstorePath(fileType, id, ssqp).Some?
    ensures Recovered(fileType, id, ssqp)
  {
    var name := Cased(id.codeFile.value, ssqp);
    if fileType.ElfCode? {
      var codeId := id.codeId.value;
      ElfRoundTrip(name, codeId);
      RecoveredAs(ElfCode, id, ssqp, name, "elf-buildid-" + codeId, ParsedPath(ElfCode, ByCodeId(codeId), name, Elf));
    } else {
      var uuid := GetMachUuid(id).value;
      MachCodeRoundTrip(name, uuid);
      RecoveredAs(MachCode, id, ssqp, name, "mach-uuid-" + uuid, ParsedPath(MachCode, ByCodeId(uuid), name, Macho));
    }
  }

  lemma NoSlash(prefix: string, hex: string)
    requires '/' !in prefix && AllLowerHex(hex)
    ensures '/' !in prefix + hex
  {
    LowerHexIsLower(hex);
  }

  lemma ElfDebugRecovered(id: ObjectId, ssqp: bool)
    requires GetSymstorePath(ElfDebug, id, ssqp).Some?
    ensures Recovered(ElfDebug, id, ssqp)
  {
    var codeId := id.codeId.value;
    ElfRoundTrip("", codeId);
    NoSlash("elf-buildid-sym-", codeId);
    RecoveredAs(ElfDebug, id, ssqp, "_.debug", "elf-buildid-sym-" + codeId,
                ParsedPath(ElfDebug, ByCodeId(codeId), "_.debug", Elf));
  }

  lemma MachDebugRecovered(id: ObjectId, ssqp: bool)
    requires GetSymstorePath(MachDebug, id, ssqp).Some?
    ensures Recovered(MachDebug, id, ssqp)
  {
    var uuid := GetMachUuid(id).value;
    MachDebugRoundTrip(uuid);
    NoSlash("mach-uuid-sym-", uuid);
    RecoveredAs(MachDebug, id, ssqp, "_.dwarf", "mach-uuid-sym-" + uuid,
                ParsedPath(MachDebug, ByCodeId(uuid), "_.dwarf", Macho));
  }

  lemma DebugFilesRecovered(fileType: FileType, id: ObjectId, ssqp: bool)
    requires fileType.ElfDebug? || fileType.MachDebug?
    requires GetSymstorePath(fileType, id, ssqp).Some?
    ensures Recovered(fileType, id, ssqp)
  {
    if fileType.ElfDebug? {
      ElfDebugRecovered(id, ssqp);
    } else {
      MachDebugRecovered(id, ssqp);
    }
  }

  lemma PdbRecoveredIff(fileType: FileType, id: ObjectId, ssqp: bool)
    requires fileType.Pdb? || fileType.PortablePdb?
    requires GetSymstorePath(fileType, id, ssqp).Some?
    ensures Recovered(fileType, id, ssqp) <==> Recoverable(fileType, id)
  {
    var name := Cased(id.debugFile.value, ssqp);
    var printed := DebugId(id.debugId.value.uuid, PrintedAppendix(id, id.debugId.value));
    var signature := PdbSignature(printed.uuid, printed.appendix, ssqp);
    PdbRoundTrip(name, printed, ssqp);
    PdbSignatureIsHex(printed.uuid, printed.appendix, ssqp);
    HexSignature(signature);
    ParseOfThreeParts(name, signature);
  }

  lemma PeRecoveredIff(id: ObjectId, ssqp: bool)
    requires GetSymstorePath(Pe, id, ssqp).Some?
    ensures Recovered(Pe, id, ssqp) <==> Recoverable(Pe, id)
  {
    var name := Cased(id.codeFile.value, ssqp);
    var signature := PeSignature(id.codeId.value, ssqp).value;
    PeRoundTrip(name, id.codeId.value, ssqp);
    PeSignatureIsHex(id.codeId.value, ssqp);
    HexSignature(signature);
    ParseOfThreeParts(name, signature);
  }

  /** In both casings, parsing a printed path recovers the file type and the identifier it was keyed
      by exactly for the recoverable objects. */
  lemma SymstoreRoundTrip(fileType: FileType, id: ObjectId, ssqp: bool)
    requires GetSymstorePath(fileType, id, ssqp).Some?
    ensures Recovered(fileType, id, ssqp) <==> Recoverable(fileType, id)
  {
    match fileType
    case ElfCode | MachCode => CodeFilesRecovered(fileType, id, ssqp);
    case ElfDebug | MachDebug => DebugFilesRecovered(fileType, id, ssqp);
    case Pdb | PortablePdb => PdbRecoveredIff(fileType, id, ssqp);
    case Pe => PeRecoveredIff(id, ssqp);
  }
}
