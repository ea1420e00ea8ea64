/**
 Host and port notation: `net.JoinHostPort`, the schemes of the registered services and
 `TargetIdentity` (internal/batch/plan.go:161-192).
 */
module Targets {
  import opened Decimal

  /** Identifiers of the registered service profiles. */
  const HTTP := "http"
  const HTTPS := "https"
  const SMB := "smb"
  const RDP := "rdp"
  const SSH := "ssh"
  const DNS := "dns"
  const CUSTOM_TCP := "custom_tcp"
  const CUSTOM_TLS := "custom_tls"

  function JoinHostPort(host: string, port: nat): string {
    if ':' in host then "[" + host + "]:" + Dec(port) else host + ":" + Dec(port)
  }

  /** `serviceScheme`. */
  function Scheme(service: string): string {
    if service == HTTP then "http"
    else if service == HTTPS then "https"
    else if service == SMB then "smb"
    else if service == RDP then "rdp"
    else if service == SSH then "ssh"
    else if service == DNS then "dns"
    else if service == CUSTOM_TCP then "tcp"
    else if service == CUSTOM_TLS then "tls"
    else ""
  }

  function TargetIdentity(hostname: string, service: string, port: nat): string {
    if Scheme(service) != "" then Scheme(service) + "://" + JoinHostPort(hostname, port) else JoinHostPort(hostname, port)
  }
}
