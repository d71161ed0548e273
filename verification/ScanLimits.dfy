/** The configured bounds of a capture and its analysis, and the captured files. */
module ScanLimits {
  import opened Bytes

  datatype Limits = Limits(
    maxFiles: nat,
    maxDirectories: nat,
    maxDepth: nat,
    maxPathBytes: nat,
    maxTotalBytes: nat,
    maxFileBytes: nat,
    maxSkillMdBytes: nat,
    maxTextBytes: nat,
    maxReferencedHosts: nat,
    maxRequirementEvidencePerKind: nat,
    maxFindings: nat,
    maxFindingsPerRule: nat)

  const SKILL_MD := "SKILL.md"

  /** What the model takes from Python's Unicode library: encoding, NFC normalisation and case folding. */
  datatype Unicode = Unicode(
    decode: Octets -> Text,
    encode: string -> Octets,
    nfc: string -> string,
    fold: string -> string)

  datatype Text = Undecodable | Text(characters: string)
}
