/** The constants of includes/config.php that the modelled code reads. Times are in seconds. */
module Config {

  /** SESSION_TIMEOUT: lifetime of a session without "remember me". */
  const SessionTimeout: int := 3600

  /** Lifetime of a "remember me" session (30 days), written inline in createUserSession. */
  const RememberMeLifetime: int := 30 * 24 * 3600

  /** PASSWORD_MIN_LENGTH, in bytes as strlen() counts them. */
  const PasswordMinLength: nat := 8

  /** MAX_LOGIN_ATTEMPTS: the failure count at which an account is locked. */
  const MaxLoginAttempts: int := 5

  /** LOCKOUT_TIME: how long a lock lasts. */
  const LockoutTime: int := 900

  const BackupEnabled: bool := true

  /** BACKUP_RETENTION_DAYS: backups older than this are pruned. */
  const BackupRetentionDays: int := 30

  const SecondsPerDay: int := 24 * 3600

  const DefaultWeightUnit: string := "lbs"
  const DefaultHeightUnit: string := "inches"
  const DefaultTimezone: string := "America/New_York"
}
