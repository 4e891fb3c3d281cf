/** Input limits shared by the sign-in and sign-up handlers, in UTF-16 code
    units of the trimmed input. */
module FormLimits {
  const MaxPasswordLength: nat := 30
  const MaxEmailLength: nat := 40
  const MaxNameLength: nat := 30

  const MaxLengthMessage := "Maximum input length exceeded"
}
