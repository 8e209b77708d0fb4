/** The names a retention policy can carry, told apart the way migrations 0077 and 0090 tell them apart. */
module RetentionNames {

  /** The text of a uuid always has this length, so a marker around it can be taken apart again. */
  const UUID_LENGTH := 36

  type UuidText = s: string | |s| == UUID_LENGTH witness seq(UUID_LENGTH, _ => '0')

  datatype Uuid = Uuid(text: UuidText)

  datatype Migration = SealedPack0077 | ImportReport0090

  datatype PolicyName =
    | Reserved(m: Migration)
    | SystemDefault
    | Aside(m: Migration, id: Uuid, tail: string)    // a user policy that was moved aside
    | Retired(m: Migration, id: Uuid, tail: string)  // a managed policy that outlived a downgrade
    | Other(text: string)
}
