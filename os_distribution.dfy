/** The Linux distribution family of a base image. It selects the package manager
    (APT for Ubuntu and Debian, YUM for CentOS) and the repository paths. */
module OSDistributions {

  /** `Other` stands for any constant of the distribution enumeration that the switches in
      the compiler and in the package formatter do not name: their `default` branches throw. */
  datatype OSDistribution = Ubuntu | Debian | Centos | Other {

    /** The distributions whose packages are installed with `apt-get`. */
    predicate UsesApt() { this == Ubuntu || this == Debian }
  }
}
