/** `CertReloader`: the webhook's serving certificate, held in one slot that a
    reload replaces and that the TLS handshake reads. Parsing the PEM files is the
    `KeyPairLoader` parameter (`tls.LoadX509KeyPair`). */
module CertReloading {
  import opened Wrappers

  /** A parsed certificate chain and private key; the reloader never looks inside. */
  datatype Certificate = Certificate(chain: seq<seq<bv8>>, privateKey: seq<bv8>)

  /** `tls.LoadX509KeyPair(certFile, keyFile)`: the key pair those files hold now,
      or the error's text. */
  type KeyPairLoader = (string, string) -> Result<Certificate, string>

  /** What a TLS handshake passes to `GetCertificate`; the callback ignores it. */
  datatype ClientHelloInfo = ClientHelloInfo(serverName: string)

  /** The `(*tls.Certificate, error)` pair the callback returns; nil is `None`. */
  datatype CertificateAnswer = CertificateAnswer(certificate: Option<Certificate>, err: Option<string>)

  class CertReloader {
    const certPath: string
    const keyPath: string
    var certificate: Option<Certificate>

    /** `NewCertReloader`: the two paths, and no certificate yet. */
    constructor (certPath: string, keyPath: string)
      ensures this.certPath == certPath && this.keyPath == keyPath
      ensures certificate.None?
    {
      this.certPath := certPath;
      this.keyPath := keyPath;
      certificate := None;
    }

    function CertPath(): (p: string)
      ensures p == certPath
    {
      certPath
    }

    function KeyPath(): (p: string)
      ensures p == keyPath
    {
      keyPath
    }

    /** `LoadCertificate`: parses the configured files; on success the slot holds
        the new certificate, which is returned; on failure the error is returned
        and the slot keeps what it held. */
    method LoadCertificate(loadX509KeyPair: KeyPairLoader) returns (cert: Option<Certificate>, err: Option<string>)
      modifies this
      ensures loadX509KeyPair(certPath, keyPath).Ok? ==>
                cert == Some(loadX509KeyPair(certPath, keyPath).value) && err.None? && certificate == cert
      ensures loadX509KeyPair(certPath, keyPath).Err? ==>
                cert.None? && err == Some(loadX509KeyPair(certPath, keyPath).error) && certificate == old(certificate)
    {
      var loaded := loadX509KeyPair(certPath, keyPath);
      if loaded.Err? {
        return None, Some(loaded.error);
      }
      certificate := Some(loaded.value);
      return certificate, None;
    }

    /** `GetCertificateFunc`: a callback that, whenever it is called, answers with
        what the slot holds at that moment, and never fails. */
    function GetCertificateFunc(): (f: ClientHelloInfo ~> CertificateAnswer)
      reads this
      ensures forall chi :: f.requires(chi) && f.reads(chi) == {this}
      ensures forall chi :: f(chi) == CertificateAnswer(certificate, None)
    {
      (chi: ClientHelloInfo) reads this => CertificateAnswer(certificate, None)
    }
  }

  /** A reloader's life as the server sees it: the callback is obtained once,
      answers nil before any load, and after each successful load answers the
      certificate just loaded (the second load replacing the first); a failed
      load in between would leave its answer unchanged. */
  method ReloadTwice(certPath: string, keyPath: string, before: KeyPairLoader, after: KeyPairLoader, hello: ClientHelloInfo)
    returns (initial: CertificateAnswer, first: CertificateAnswer, second: CertificateAnswer,
             firstErr: Option<string>, secondErr: Option<string>)
    requires before(certPath, keyPath).Ok? && after(certPath, keyPath).Ok?
    ensures firstErr.None? && secondErr.None?
    ensures initial == CertificateAnswer(None, None)
    ensures first == CertificateAnswer(Some(before(certPath, keyPath).value), None)
    ensures second == CertificateAnswer(Some(after(certPath, keyPath).value), None)
  {
    var reloader := new CertReloader(certPath, keyPath);
    var getCertificate := reloader.GetCertificateFunc();
    initial := getCertificate(hello);
    var cert;
    cert, firstErr := reloader.LoadCertificate(before);
    first := getCertificate(hello);
    cert, secondErr := reloader.LoadCertificate(after);
    second := getCertificate(hello);
  }

  /** A failed reload leaves the callback's answer as it was. */
  method FailedReloadKeepsCertificate(certPath: string, keyPath: string, good: KeyPairLoader, bad: KeyPairLoader, hello: ClientHelloInfo)
    returns (before: CertificateAnswer, after: CertificateAnswer, err: Option<string>)
    requires good(certPath, keyPath).Ok? && bad(certPath, keyPath).Err?
    ensures before == after == CertificateAnswer(Some(good(certPath, keyPath).value), None)
    ensures err == Some(bad(certPath, keyPath).error)
  {
    var reloader := new CertReloader(certPath, keyPath);
    var getCertificate := reloader.GetCertificateFunc();
    var cert, _ := reloader.LoadCertificate(good);
    before := getCertificate(hello);
    cert, err := reloader.LoadCertificate(bad);
    after := getCertificate(hello);
  }
}
