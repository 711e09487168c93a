/** How a boot attempt ends. `fatal` prints its message and calls `fail`,
    which never returns: every fatal condition halts the boot in place. */
module Status {

  datatype Fatal =
    | KernelNotFound     // no __vmlinuz section
    | NotLinuxKernel     // "HdrS" signature missing at 0x202
    | LoadsLow           // LOADED_HIGH clear in loadflags
    | NoAcpiTable        // neither ACPI 2.0 nor ACPI 1.0 RSDP in the config tables
    | TooManyEntries     // the E820 table already holds 128 entries

  datatype Status = Running | Halted(reason: Fatal)

  datatype Option<T> = None | Some(value: T)
}
