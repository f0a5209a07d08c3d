/** The Kubernetes and karydia resources that several parts of the program share. */
module Resources {

  datatype ConfigSpec = ConfigSpec(
    enforcement: bool,
    automountServiceAccountToken: string,
    seccompProfile: string,
    networkPolicies: string,
    podSecurityContext: string)

  /** A KarydiaConfig; `version` is its resource version. */
  datatype KarydiaConfig = KarydiaConfig(name: string, version: nat, spec: ConfigSpec)

  datatype Namespace = Namespace(name: string, annotations: map<string, string>)

  /** A setting and where it was found: "config" or "namespace". */
  datatype Setting = Setting(value: string, src: string)
}
